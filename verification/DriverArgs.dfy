/**
 * Argument compilation of the backend drivers (internal/backend/driver.go): which user arguments are
 * accepted, what the controller adds to them, and how the launched command line is read back.
 */
module DriverArgs {
  import opened Prelude

  datatype Kind = VLLM | LlamaCpp | SGLang

  /** One argument the controller adds: a flag with a value, or a bare switch. */
  datatype Entry = Pair(flag: string, value: string) | Switch(flag: string)

  datatype Model = Model(backend: Option<Kind>, name: string, source: string, revision: string, args: seq<string>,
                         toolCallParser: string, reasoningParser: string, chatTemplate: bool)

  const TEMPLATE_PATH := "/etc/llm-templates/chat-template.jinja"

  function InjectedFlags(k: Kind): seq<string> {
    match k
    case VLLM => ["--model", "--revision", "--served-model-name"]
    case LlamaCpp => ["-m", "--model", "--alias"]
    case SGLang => ["--model-path", "--revision", "--served-model-name"]
  }

  function ChatTemplateFlags(k: Kind): seq<string> {
    match k
    case VLLM => ["--chat-template"]
    case LlamaCpp => ["--chat-template-file", "--jinja"]
    case SGLang => []
  }

  predicate SupportsParsers(k: Kind) { k != LlamaCpp }

  predicate SupportsTemplate(k: Kind) { k != SGLang }

  // ------------------------------------------------------------------ validation

  predicate IsInjected(arg: string, flag: string) {
    arg == flag || flag + "=" <= arg || flag + " " <= arg
  }

  predicate ValidateArgs(k: Kind, args: seq<string>) {
    forall arg, flag :: arg in args && flag in InjectedFlags(k) ==> !IsInjected(arg, flag)
  }

  predicate ContainsFlag(args: seq<string>, flag: string) {
    exists arg :: arg in args && (arg == flag || flag + "=" <= arg)
  }

  /** The part of Validate that concerns the command line; the artifact checks only reject more. */
  predicate Validate(k: Kind, m: Model) {
    && (m.backend.Some? ==> m.backend.value == k)
    && ValidateArgs(k, m.args)
    && (m.toolCallParser != "" ==> SupportsParsers(k) && !ContainsFlag(m.args, "--tool-call-parser"))
    && (m.reasoningParser != "" ==> SupportsParsers(k) && !ContainsFlag(m.args, "--reasoning-parser"))
    && (m.chatTemplate ==> SupportsTemplate(k) && forall f :: f in ChatTemplateFlags(k) ==> !ContainsFlag(m.args, f))
  }

  // ------------------------------------------------------------------ compilation

  function Optional(present: bool, e: Entry): seq<Entry> { if present then [e] else [] }

  function BuildEntries(k: Kind, m: Model): seq<Entry> {
    match k
    case VLLM => [Pair("--model", m.source)] + Optional(m.revision != "", Pair("--revision", m.revision))
                 + [Pair("--served-model-name", m.name)]
    case LlamaCpp => [Pair("-m", m.source)] + [Pair("--alias", m.name)]
    case SGLang => [Pair("--model-path", m.source)] + Optional(m.revision != "", Pair("--revision", m.revision))
                   + [Pair("--served-model-name", m.name)]
  }

  function ParserEntries(k: Kind, m: Model): seq<Entry> {
    Optional(m.toolCallParser != "" && SupportsParsers(k), Pair("--tool-call-parser", m.toolCallParser))
    + Optional(m.reasoningParser != "" && SupportsParsers(k), Pair("--reasoning-parser", m.reasoningParser))
  }

  function TemplateEntries(k: Kind): seq<Entry> {
    match k
    case VLLM => [Pair("--chat-template", TEMPLATE_PATH)]
    case LlamaCpp => [Switch("--jinja")] + [Pair("--chat-template-file", TEMPLATE_PATH)]
    case SGLang => []
  }

  /** Everything the controller adds, in command-line order. */
  function Entries(k: Kind, m: Model): seq<Entry> {
    BuildEntries(k, m) + ParserEntries(k, m) + (if m.chatTemplate then TemplateEntries(k) else [])
  }

  function Flatten(es: seq<Entry>): seq<string> {
    if es == [] then []
    else (if es[0].Pair? then [es[0].flag, es[0].value] else [es[0].flag]) + Flatten(es[1..])
  }

  function EffectiveArgs(k: Kind, m: Model): seq<string> {
    m.args + Flatten(Entries(k, m))
  }

  // ------------------------------------------------------------------ reading a command line back

  predicate Dash(s: string) { s != "" && s[0] == '-' }

  /** launchArguments on values: a flag takes the next argument unless that one is a flag itself. */
  function Launch(args: seq<string>, values: map<string, string>): map<string, string>
    decreases |args|
  {
    if args == [] then values
    else if !Dash(args[0]) then Launch(args[1..], values)
    else if |args| > 1 && !Dash(args[1]) then Launch(args[2..], values[args[0] := args[1]])
    else Launch(args[1..], values[args[0] := "true"])
  }

  /** The cursor loop of launchArguments. */
  method LaunchArguments(args: seq<string>) returns (values: map<string, string>)
    ensures values == Launch(args, map[])
  {
    values := map[];
    var i := 0;
    while i < |args|
      invariant 0 <= i <= |args|
      invariant Launch(args[i..], values) == Launch(args, map[])
    {
      assert args[i..][1..] == args[i + 1..];
      if !Dash(args[i]) {
        i := i + 1;
        continue;
      }
      if i + 1 < |args| && !Dash(args[i + 1]) {
        assert args[i..][2..] == args[i + 2..];
        values := values[args[i] := args[i + 1]];
        i := i + 1;
      } else {
        values := values[args[i] := "true"];
      }
      i := i + 1;
    }
  }

  // ------------------------------------------------------------------ facts about Launch

  /** Reading two argument lists one after the other, when the second starts with a flag. */
  lemma {:induction false} LaunchConcat(a: seq<string>, b: seq<string>, values: map<string, string>)
    requires b == [] || Dash(b[0])
    ensures Launch(a + b, values) == Launch(b, Launch(a, values))
    decreases |a|
  {
    if a == [] {
      assert a + b == b;
    } else if !Dash(a[0]) {
      assert (a + b)[1..] == a[1..] + b;
      LaunchConcat(a[1..], b, values);
    } else if |a| > 1 && !Dash(a[1]) {
      assert (a + b)[2..] == a[2..] + b;
      LaunchConcat(a[2..], b, values[a[0] := a[1]]);
    } else {
      assert (a + b)[1..] == a[1..] + b;
      LaunchConcat(a[1..], b, values[a[0] := "true"]);
    }
  }

  /** A key that is no argument keeps the value it had. */
  lemma {:induction false} LaunchKeeps(args: seq<string>, values: map<string, string>, f: string)
    requires f !in args
    ensures f in Launch(args, values) <==> f in values
    ensures f in values ==> Launch(args, values)[f] == values[f]
    decreases |args|
  {
    if args != [] {
      if !Dash(args[0]) {
        LaunchKeeps(args[1..], values, f);
      } else if |args| > 1 && !Dash(args[1]) {
        LaunchKeeps(args[2..], values[args[0] := args[1]], f);
      } else {
        LaunchKeeps(args[1..], values[args[0] := "true"], f);
      }
    }
  }

  /** A flag that is never followed by a plain argument reads as a switch. */
  lemma {:induction false} LaunchSwitch(args: seq<string>, values: map<string, string>, f: string)
    requires Dash(f) && f in args
    requires forall j :: 0 <= j < |args| && args[j] == f ==> j + 1 == |args| || Dash(args[j + 1])
    ensures f in Launch(args, values) && Launch(args, values)[f] == "true"
    decreases |args|
  {
    if !Dash(args[0]) {
      LaunchSwitch(args[1..], values, f);
    } else if |args| > 1 && !Dash(args[1]) {
      assert args[0] != f && args[1] != f;
      var rest := args[2..];
      assert forall j :: 0 <= j < |rest| ==> rest[j] == args[j + 2];
      assert args == [args[0], args[1]] + rest;
      LaunchSwitch(rest, values[args[0] := args[1]], f);
    } else {
      var rest := args[1..];
      assert forall j :: 0 <= j < |rest| ==> rest[j] == args[j + 1];
      if f in rest {
        LaunchSwitch(rest, values[args[0] := "true"], f);
      } else {
        LaunchKeeps(rest, values[args[0] := "true"], f);
      }
    }
  }

  function Reads(e: Entry): string { if e.Pair? then e.value else "true" }

  function Flags(es: seq<Entry>): set<string> {
    if es == [] then {} else {es[0].flag} + Flags(es[1..])
  }

  /** The flags are flags, and no two are the same. */
  predicate Proper(es: seq<Entry>) {
    es == [] || (Dash(es[0].flag) && es[0].flag !in Flags(es[1..]) && Proper(es[1..]))
  }

  predicate PlainValue(e: Entry) { e.Pair? ==> !Dash(e.value) }

  predicate PlainValues(es: seq<Entry>) {
    forall e :: e in es ==> PlainValue(e)
  }

  /** What reading the entries back should give, on top of `values`. */
  function EntryMap(es: seq<Entry>, values: map<string, string>): map<string, string> {
    if es == [] then values else EntryMap(es[1..], values[es[0].flag := Reads(es[0])])
  }

  function Head(e: Entry): seq<string> {
    if e.Pair? then [e.flag, e.value] else [e.flag]
  }

  lemma FlattenStartsWithFlag(es: seq<Entry>)
    requires Proper(es)
    ensures Flatten(es) == [] || Dash(Flatten(es)[0])
  {
  }

  /** With plain values, the controller's entries read back as themselves. */
  lemma {:induction false} LaunchEntries(es: seq<Entry>, values: map<string, string>)
    requires Proper(es) && PlainValues(es)
    ensures Launch(Flatten(es), values) == EntryMap(es, values)
    decreases |es|
  {
    if es != [] {
      FlattenStartsWithFlag(es[1..]);
      assert PlainValue(es[0]);
      if es[0].Pair? {
        assert Flatten(es)[2..] == Flatten(es[1..]);
      } else {
        assert Flatten(es)[1..] == Flatten(es[1..]);
      }
      LaunchEntries(es[1..], values[es[0].flag := Reads(es[0])]);
    }
  }

  /** Each entry's flag has the entry's value, and no other key is disturbed. */
  lemma {:induction false} EntryMapAt(es: seq<Entry>, values: map<string, string>, f: string)
    requires Proper(es)
    ensures f !in Flags(es) ==>
              (f in EntryMap(es, values) <==> f in values) && (f in values ==> EntryMap(es, values)[f] == values[f])
    ensures forall e :: e in es && e.flag == f ==> f in EntryMap(es, values) && EntryMap(es, values)[f] == Reads(e)
    decreases |es|
  {
    if es != [] {
      EntryMapAt(es[1..], values[es[0].flag := Reads(es[0])], f);
      FlagsOf(es[1..]);
    }
  }

  lemma {:induction false} FlagsOf(es: seq<Entry>)
    ensures forall f :: f in Flags(es) <==> exists e :: e in es && e.flag == f
    ensures forall e :: e in es ==> e.flag in Flags(es)
    decreases |es|
  {
    if es != [] {
      FlagsOf(es[1..]);
      assert forall e :: e in es <==> e == es[0] || e in es[1..];
    }
  }

  /** Every occurrence of `f` is followed by a flag or by nothing. */
  predicate Unfed(s: seq<string>, f: string) {
    forall j :: 0 <= j < |s| && s[j] == f ==> j + 1 == |s| || Dash(s[j + 1])
  }

  lemma UnfedConcat(a: seq<string>, b: seq<string>, f: string)
    requires Unfed(a, f) && Unfed(b, f) && (b == [] || Dash(b[0]))
    ensures Unfed(a + b, f)
  {
    var s := a + b;
    forall j | 0 <= j < |s| && s[j] == f ensures j + 1 == |s| || Dash(s[j + 1]) {
      if j >= |a| { assert b[j - |a|] == f; }
    }
  }

  /** A flag whose own value starts with a dash, or which is no flag of the list at all, is never fed a value. */
  lemma {:induction false} UnfedEntries(es: seq<Entry>, f: string)
    requires Proper(es)
    requires forall e :: e in es && e.flag == f ==> e.Pair? && Dash(e.value)
    ensures Unfed(Flatten(es), f)
    decreases |es|
  {
    if es != [] {
      UnfedEntries(es[1..], f);
      FlattenStartsWithFlag(es[1..]);
      assert Unfed(Head(es[0]), f);
      UnfedConcat(Head(es[0]), Flatten(es[1..]), f);
      assert Flatten(es) == Head(es[0]) + Flatten(es[1..]);
    }
  }

  lemma {:induction false} FlagInFlatten(es: seq<Entry>, e: Entry)
    requires e in es
    ensures e.flag in Flatten(es)
    decreases |es|
  {
    assert Flatten(es) == Head(es[0]) + Flatten(es[1..]);
    if e != es[0] {
      FlagInFlatten(es[1..], e);
    } else {
      assert Head(e)[0] in Head(e);
    }
  }

  /** With plain values, each flag occurs once in the flattening, and nothing else that looks like a flag occurs. */
  lemma {:induction false} FlagsOccurOnce(es: seq<Entry>, f: string)
    requires Proper(es) && PlainValues(es) && Dash(f)
    ensures multiset(Flatten(es))[f] == if f in Flags(es) then 1 else 0
    decreases |es|
  {
    if es != [] {
      FlagsOccurOnce(es[1..], f);
      assert PlainValue(es[0]);
      assert Flatten(es) == Head(es[0]) + Flatten(es[1..]);
      assert multiset(Head(es[0]))[f] == if es[0].flag == f then 1 else 0;
    }
  }

  // ------------------------------------------------------------------ the drivers' own entries

  lemma {:induction false} ProperConcat(a: seq<Entry>, b: seq<Entry>)
    requires Proper(a) && Proper(b) && Flags(a) !! Flags(b)
    ensures Proper(a + b) && Flags(a + b) == Flags(a) + Flags(b)
    decreases |a|
  {
    if a == [] {
      assert a + b == b;
    } else {
      assert (a + b)[1..] == a[1..] + b;
      ProperConcat(a[1..], b);
    }
  }

  lemma OptionalProper(present: bool, e: Entry)
    requires Dash(e.flag)
    ensures Proper(Optional(present, e)) && Flags(Optional(present, e)) == if present then {e.flag} else {}
  {
    assert [e][1..] == [];
  }

  /** Two parts of one entry each, either of which may be absent. */
  lemma TwoProper(p: bool, e: Entry, q: bool, f: Entry)
    requires Dash(e.flag) && Dash(f.flag) && e.flag != f.flag
    ensures Proper(Optional(p, e) + Optional(q, f))
    ensures Flags(Optional(p, e) + Optional(q, f)) == (if p then {e.flag} else {}) + (if q then {f.flag} else {})
  {
    OptionalProper(p, e);
    OptionalProper(q, f);
    ProperConcat(Optional(p, e), Optional(q, f));
  }

  lemma ThreeProper(e: Entry, q: bool, f: Entry, g: Entry)
    requires Dash(e.flag) && Dash(f.flag) && Dash(g.flag) && e.flag != f.flag && f.flag != g.flag && e.flag != g.flag
    ensures Proper([e] + Optional(q, f) + [g])
    ensures Flags([e] + Optional(q, f) + [g]) == {e.flag, g.flag} + if q then {f.flag} else {}
  {
    TwoProper(true, e, q, f);
    OptionalProper(true, g);
    ProperConcat([e] + Optional(q, f), [g]);
  }

  lemma BuildProper(k: Kind, m: Model)
    ensures Proper(BuildEntries(k, m))
    ensures forall f :: f in Flags(BuildEntries(k, m)) ==> f in InjectedFlags(k)
  {
    match k
    case VLLM =>
      var a, b, c := Pair("--model", m.source), Pair("--revision", m.revision), Pair("--served-model-name", m.name);
      assert |a.flag| == 7 && |b.flag| == 10 && |c.flag| == 19;
      ThreeProper(a, m.revision != "", b, c);
      assert InjectedFlags(k) == [a.flag, b.flag, c.flag];
    case LlamaCpp =>
      var a, c := Pair("-m", m.source), Pair("--alias", m.name);
      assert |a.flag| == 2 && |c.flag| == 7;
      TwoProper(true, a, true, c);
      assert InjectedFlags(k)[0] == a.flag && InjectedFlags(k)[2] == c.flag;
    case SGLang =>
      var a, b, c := Pair("--model-path", m.source), Pair("--revision", m.revision),
          Pair("--served-model-name", m.name);
      assert |a.flag| == 12 && |b.flag| == 10 && |c.flag| == 19;
      ThreeProper(a, m.revision != "", b, c);
      assert InjectedFlags(k) == [a.flag, b.flag, c.flag];
  }

  /** The parser flags are eighteen characters long; no other injected flag is. */
  lemma ParserProper(k: Kind, m: Model)
    ensures Proper(ParserEntries(k, m))
    ensures Flags(ParserEntries(k, m)) ==
            (if m.toolCallParser != "" && SupportsParsers(k) then {"--tool-call-parser"} else {})
            + (if m.reasoningParser != "" && SupportsParsers(k) then {"--reasoning-parser"} else {})
    ensures forall f :: f in Flags(ParserEntries(k, m)) ==> |f| == 18
  {
    var t, r := Pair("--tool-call-parser", m.toolCallParser), Pair("--reasoning-parser", m.reasoningParser);
    assert t.flag[2] != r.flag[2];
    TwoProper(m.toolCallParser != "" && SupportsParsers(k), t, m.reasoningParser != "" && SupportsParsers(k), r);
  }

  lemma TemplateProper(k: Kind)
    ensures Proper(TemplateEntries(k))
    ensures forall f :: f in Flags(TemplateEntries(k)) ==> f in ChatTemplateFlags(k)
  {
    match k
    case VLLM =>
      var e := Pair("--chat-template", TEMPLATE_PATH);
      OptionalProper(true, e);
      assert ChatTemplateFlags(k) == [e.flag];
    case LlamaCpp =>
      var e, f := Switch("--jinja"), Pair("--chat-template-file", TEMPLATE_PATH);
      assert |e.flag| == 7 && |f.flag| == 20;
      TwoProper(true, e, true, f);
      assert ChatTemplateFlags(k) == [f.flag, e.flag];
    case SGLang =>
  }

  /** No flag of one group is a flag of another. */
  lemma GroupsDisjoint(k: Kind)
    ensures forall f :: f in InjectedFlags(k) ==> |f| != 18 && f !in ChatTemplateFlags(k)
    ensures forall f :: f in ChatTemplateFlags(k) ==> |f| != 18
  {
    match k
    case VLLM =>
      assert |"--model"| == 7 && |"--revision"| == 10 && |"--served-model-name"| == 19 && |"--chat-template"| == 15;
    case LlamaCpp =>
      assert |"-m"| == 2 && |"--model"| == 7 && |"--alias"| == 7 && |"--jinja"| == 7 && |"--chat-template-file"| == 20;
      assert "--jinja"[2] != "--model"[2] && "--jinja"[2] != "--alias"[2];
    case SGLang =>
      assert |"--model-path"| == 12 && |"--revision"| == 10 && |"--served-model-name"| == 19;
  }

  /** The controller never adds the same flag twice. */
  lemma EntriesProper(k: Kind, m: Model)
    ensures Proper(Entries(k, m))
    ensures Flags(Entries(k, m)) == Flags(BuildEntries(k, m)) + Flags(ParserEntries(k, m))
                                    + (if m.chatTemplate then Flags(TemplateEntries(k)) else {})
  {
    GroupsDisjoint(k);
    BuildProper(k, m);
    ParserProper(k, m);
    TemplateProper(k);
    ProperConcat(BuildEntries(k, m), ParserEntries(k, m));
    ProperConcat(BuildEntries(k, m) + ParserEntries(k, m), if m.chatTemplate then TemplateEntries(k) else []);
  }

  lemma AvoidsBuild(k: Kind, m: Model, f: string)
    requires ValidateArgs(k, m.args) && f in InjectedFlags(k)
    ensures f !in m.args
  {
    assert IsInjected(f, f);
  }

  lemma AvoidsFlag(args: seq<string>, f: string)
    requires !ContainsFlag(args, f)
    ensures f !in args
  {
  }

  lemma AvoidsParsers(k: Kind, m: Model, f: string)
    requires Validate(k, m) && f in Flags(ParserEntries(k, m))
    ensures f !in m.args
  {
    ParserProper(k, m);
    AvoidsFlag(m.args, f);
  }

  lemma AvoidsTemplate(k: Kind, m: Model, f: string)
    requires Validate(k, m) && m.chatTemplate && f in Flags(TemplateEntries(k))
    ensures f !in m.args
  {
    TemplateProper(k);
    AvoidsFlag(m.args, f);
  }

  /** A model that Validate accepts uses none of the flags the controller will add. */
  lemma AcceptedArgsAvoidEntries(k: Kind, m: Model, f: string)
    requires Validate(k, m) && f in Flags(Entries(k, m))
    ensures f !in m.args
  {
    EntriesProper(k, m);
    if f in Flags(BuildEntries(k, m)) {
      BuildProper(k, m);
      AvoidsBuild(k, m, f);
    } else if f in Flags(ParserEntries(k, m)) {
      AvoidsParsers(k, m, f);
    } else {
      AvoidsTemplate(k, m, f);
    }
  }

  /** Each flag the controller adds stands exactly once on the command line. */
  lemma InjectedFlagsOccurOnce(k: Kind, m: Model, f: string)
    requires Validate(k, m) && PlainValues(Entries(k, m)) && f in Flags(Entries(k, m))
    ensures multiset(EffectiveArgs(k, m))[f] == 1
  {
    EntriesProper(k, m);
    AcceptedArgsAvoidEntries(k, m, f);
    FlagIsDash(Entries(k, m), f);
    FlagsOccurOnce(Entries(k, m), f);
  }

  lemma {:induction false} FlagIsDash(es: seq<Entry>, f: string)
    requires Proper(es) && f in Flags(es)
    ensures Dash(f)
    decreases |es|
  {
    if f != es[0].flag { FlagIsDash(es[1..], f); }
  }

  /** The launched command line is the user's reading with the controller's entries on top. */
  lemma LaunchOfEffective(k: Kind, m: Model)
    requires PlainValues(Entries(k, m))
    ensures Launch(EffectiveArgs(k, m), map[]) == EntryMap(Entries(k, m), Launch(m.args, map[]))
  {
    EntriesProper(k, m);
    FlattenStartsWithFlag(Entries(k, m));
    LaunchConcat(m.args, Flatten(Entries(k, m)), map[]);
    LaunchEntries(Entries(k, m), Launch(m.args, map[]));
  }

  /** Every entry the user's own arguments give survives the additions unchanged. */
  lemma UserArgumentsSurvive(k: Kind, m: Model, f: string)
    requires Validate(k, m) && PlainValues(Entries(k, m)) && f in Launch(m.args, map[])
    ensures f in Launch(EffectiveArgs(k, m), map[])
    ensures Launch(EffectiveArgs(k, m), map[])[f] == Launch(m.args, map[])[f]
  {
    LaunchOfEffective(k, m);
    EntriesProper(k, m);
    EntryMapAt(Entries(k, m), Launch(m.args, map[]), f);
    if f in Flags(Entries(k, m)) {
      AcceptedArgsAvoidEntries(k, m, f);
      LaunchKeeps(m.args, map[], f);
    }
  }

  /** The flag reads back as what the model asked for. */
  ghost predicate ReadsBack(k: Kind, m: Model, e: Entry) {
    e.flag in Launch(EffectiveArgs(k, m), map[]) && Launch(EffectiveArgs(k, m), map[])[e.flag] == Reads(e)
  }

  /**
   * For every accepted model, all the controller's flags read back as the model's values (a bare
   * switch as "true") exactly when no injected value starts with a dash.
   */
  lemma InjectedValuesReadBack(k: Kind, m: Model)
    requires Validate(k, m)
    ensures (forall e :: e in Entries(k, m) ==> ReadsBack(k, m, e)) <==> PlainValues(Entries(k, m))
  {
    var es := Entries(k, m);
    EntriesProper(k, m);
    if PlainValues(es) {
      LaunchOfEffective(k, m);
      forall e | e in es ensures ReadsBack(k, m, e) {
        EntryMapAt(es, Launch(m.args, map[]), e.flag);
      }
    } else {
      var e :| e in es && !PlainValue(e);
      DashValueIsLost(k, m, e);
    }
  }

  /** A value that starts with a dash is read as the next flag, and its own flag as a switch. */
  lemma DashValueIsLost(k: Kind, m: Model, e: Entry)
    requires Validate(k, m) && e in Entries(k, m) && !PlainValue(e)
    ensures !ReadsBack(k, m, e)
  {
    var es, f := Entries(k, m), e.flag;
    EntriesProper(k, m);
    FlagsOf(es);
    FlagIsDash(es, f);
    AcceptedArgsAvoidEntries(k, m, f);
    SameFlagSameEntry(es, e);
    UnfedEntries(es, f);
    FlattenStartsWithFlag(es);
    UnfedConcat(m.args, Flatten(es), f);
    FlagInFlatten(es, e);
    LaunchSwitch(EffectiveArgs(k, m), map[], f);
    assert Dash(e.value) && !Dash("true");
  }

  lemma {:induction false} SameFlagSameEntry(es: seq<Entry>, e: Entry)
    requires Proper(es) && e in es
    ensures forall x :: x in es && x.flag == e.flag ==> x == e
    decreases |es|
  {
    FlagsOf(es[1..]);
    if e in es[1..] { SameFlagSameEntry(es[1..], e); }
  }
}
