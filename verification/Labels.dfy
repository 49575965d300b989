/**
 * Reading Prometheus labels (internal/backend/driver.go, parsePrometheusLabels), against printing them
 * with the label escaping of the Prometheus text exposition format: backslash, double quote and line
 * feed are escaped, everything else stands for itself.  Text is a sequence of Unicode characters.
 */
module Labels {
  import opened Prelude

  datatype Label = Label(name: string, value: string)

  // ------------------------------------------------------------------ printing

  function EscapeChar(c: char): string {
    if c == '\\' then "\\\\" else if c == '"' then "\\\"" else if c == '\n' then "\\n" else [c]
  }

  function Escape(v: string): string {
    if v == "" then "" else EscapeChar(v[0]) + Escape(v[1..])
  }

  function PrintLabel(l: Label): string {
    l.name + "=\"" + Escape(l.value) + "\""
  }

  function Print(ls: seq<Label>): string {
    if ls == [] then ""
    else if |ls| == 1 then PrintLabel(ls[0])
    else PrintLabel(ls[0]) + "," + Print(ls[1..])
  }

  // ------------------------------------------------------------------ strconv.Unquote

  function HexDigit(c: char): Option<nat> {
    if '0' <= c <= '9' then Some((c - '0') as int)
    else if 'a' <= c <= 'f' then Some((c - 'a') as int + 10)
    else if 'A' <= c <= 'F' then Some((c - 'A') as int + 10)
    else None
  }

  /** The number written by digits of a base of at most sixteen. */
  function Digits(s: string, base: nat, acc: nat): Option<nat> {
    if s == "" then Some(acc)
    else
      var d := HexDigit(s[0]);
      if d.Some? && d.value < base then Digits(s[1..], base, acc * base + d.value) else None
  }

  predicate IsScalar(n: nat) { n < 0xD800 || 0xE000 <= n < 0x110000 }

  /** A numeric escape of `n` digits at the front of `s`; a byte above 127 is not text and is rejected here. */
  function Numeric(s: string, n: nat, base: nat, limit: nat): Option<(char, string)>
    requires limit <= 0x110000
  {
    if |s| < n then None
    else
      var v := Digits(s[..n], base, 0);
      if v.Some? && v.value < limit && IsScalar(v.value) then Some((v.value as char, s[n..])) else None
  }

  /** The character an escape stands for, and what follows it; `s` starts after the backslash. */
  function UnescapeChar(s: string): (r: Option<(char, string)>)
    ensures r.Some? ==> |r.value.1| < |s|
  {
    if s == "" then None
    else match s[0]
      case 'a' => Some((7 as char, s[1..]))
      case 'b' => Some((8 as char, s[1..]))
      case 'f' => Some((12 as char, s[1..]))
      case 'n' => Some(('\n', s[1..]))
      case 'r' => Some(('\r', s[1..]))
      case 't' => Some(('\t', s[1..]))
      case 'v' => Some((11 as char, s[1..]))
      case '\\' => Some(('\\', s[1..]))
      case '"' => Some(('"', s[1..]))
      case 'x' => Numeric(s[1..], 2, 16, 128)
      case 'u' => Numeric(s[1..], 4, 16, 0x110000)
      case 'U' => Numeric(s[1..], 8, 16, 0x110000)
      case _ => if '0' <= s[0] <= '7' then Numeric(s, 3, 8, 128) else None
  }

  /** The inside of a double-quoted literal and its closing quote; nothing may follow the quote. */
  function UnquoteBody(s: string): Option<string>
    decreases |s|
  {
    if s == "" || s[0] == '\n' then None
    else if s[0] == '"' then (if |s| == 1 then Some("") else None)
    else if s[0] != '\\' then
      var rest := UnquoteBody(s[1..]);
      if rest.Some? then Some([s[0]] + rest.value) else None
    else
      var e := UnescapeChar(s[1..]);
      if e.None? then None
      else
        var rest := UnquoteBody(e.value.1);
        if rest.Some? then Some([e.value.0] + rest.value) else None
  }

  function Unquote(s: string): Option<string> {
    if |s| < 2 || s[0] != '"' then None else UnquoteBody(s[1..])
  }

  // ------------------------------------------------------------------ parsing

  /** Position of the first '=', or the length. */
  function IndexOfEquals(s: string): (i: nat)
    ensures i <= |s|
    ensures i < |s| ==> s[i] == '='
    ensures forall j :: 0 <= j < i ==> s[j] != '='
  {
    if s == "" then 0 else if s[0] == '=' then 0 else 1 + IndexOfEquals(s[1..])
  }

  /** First quote at or after `i` that does not follow a backslash, or the length. */
  function FindEnd(s: string, i: nat): (end: nat)
    requires 1 <= i <= |s|
    ensures i <= end <= |s|
    decreases |s| - i
  {
    if i == |s| then i
    else if s[i] == '"' && s[i - 1] != '\\' then i
    else FindEnd(s, i + 1)
  }

  function TrimComma(s: string): string {
    if s != "" && s[0] == ',' then s[1..] else s
  }

  /** The literal at the front of `rest` and what follows it, if it ends and unquotes. */
  function Literal(rest: string): (r: Option<(string, string)>)
    requires rest != ""
    ensures r.Some? ==> |r.value.1| < |rest|
  {
    var end := FindEnd(rest, 1);
    if end >= |rest| then None
    else
      var v := Unquote(rest[..end + 1]);
      if v.None? then None else Some((v.value, TrimComma(rest[end + 1..])))
  }

  function Parse(encoded: string, labels: map<string, string>): map<string, string>
    decreases |encoded|
  {
    var eq := IndexOfEquals(encoded);
    if eq < 1 || eq + 1 >= |encoded| || encoded[eq + 1] != '"' then labels
    else
      var literal := Literal(encoded[eq + 1..]);
      if literal.None? then labels
      else Parse(literal.value.1, labels[encoded[..eq] := literal.value.0])
  }

  /** strings.IndexByte for '='; the length when there is none. */
  method FindEquals(encoded: string) returns (equals: nat)
    ensures equals == IndexOfEquals(encoded)
  {
    equals := 0;
    while equals < |encoded| && encoded[equals] != '='
      invariant equals <= IndexOfEquals(encoded)
    {
      equals := equals + 1;
    }
  }

  /** The inner loop of parsePrometheusLabels. */
  method ScanLiteral(rest: string) returns (end: nat)
    requires rest != ""
    ensures end == FindEnd(rest, 1)
  {
    end := 1;
    while end < |rest|
      invariant 1 <= end <= |rest| && FindEnd(rest, end) == FindEnd(rest, 1)
    {
      if rest[end] == '"' && rest[end - 1] != '\\' {
        return;
      }
      end := end + 1;
    }
  }

  /** One turn of the outer loop after the name: scan the literal, unquote it, drop the comma. */
  method ReadLiteral(rest: string) returns (literal: Option<(string, string)>)
    requires rest != ""
    ensures literal == Literal(rest)
  {
    var end := ScanLiteral(rest);
    if end >= |rest| {
      return None;
    }
    var value := Unquote(rest[..end + 1]);
    if value.None? {
      return None;
    }
    return Some((value.value, TrimComma(rest[end + 1..])));
  }

  /** parsePrometheusLabels; it ends on every input. */
  method ParsePrometheusLabels(input: string) returns (labels: map<string, string>)
    ensures labels == Parse(input, map[])
  {
    labels := map[];
    var encoded := input;
    while |encoded| > 0
      invariant Parse(encoded, labels) == Parse(input, map[])
      decreases |encoded|
    {
      var equals := FindEquals(encoded);
      if equals < 1 || equals + 1 >= |encoded| || encoded[equals + 1] != '"' {
        return;
      }
      var literal := ReadLiteral(encoded[equals + 1..]);
      if literal.None? {
        return;
      }
      labels := labels[encoded[..equals] := literal.value.0];
      encoded := literal.value.1;
    }
  }

  // ------------------------------------------------------------------ what survives the round trip

  predicate EndsInBackslash(v: string) { v != "" && v[|v| - 1] == '\\' }

  predicate GoodName(n: string) { n != "" && '=' !in n }

  /** The labels before the first value that ends in a backslash. */
  function Readable(ls: seq<Label>): seq<Label> {
    if ls == [] || EndsInBackslash(ls[0].value) then [] else [ls[0]] + Readable(ls[1..])
  }

  function Record(labels: map<string, string>, ls: seq<Label>): map<string, string>
    decreases |ls|
  {
    if ls == [] then labels else Record(labels[ls[0].name := ls[0].value], ls[1..])
  }

  /** What stands in a text from a position on. */
  predicate StandsAt(s: string, at: nat, part: string) { at + |part| <= |s| && s[at..at + |part|] == part }

  lemma StandsSplit(s: string, at: nat, a: string, b: string)
    requires StandsAt(s, at, a + b)
    ensures StandsAt(s, at, a) && StandsAt(s, at + |a|, b)
  {
    assert s[at..at + |a|] == (a + b)[..|a|] == a;
    assert s[at + |a|..at + |a| + |b|] == (a + b)[|a|..] == b;
  }

  /** The scan for the closing quote passes over one escaped character. */
  lemma ScanPassesChar(s: string, at: nat, c: char)
    requires at >= 1 && StandsAt(s, at, EscapeChar(c))
    ensures FindEnd(s, at) == FindEnd(s, at + |EscapeChar(c)|)
  {
    var e := EscapeChar(c);
    assert s[at] == s[at..at + |e|][0] == e[0];
    if |e| == 2 {
      assert s[at + 1] == s[at..at + |e|][1] == e[1];
    }
  }

  lemma ScanPassesFirst(s: string, at: nat, c: char, more: string)
    requires at >= 1 && StandsAt(s, at, EscapeChar(c) + more)
    ensures var next := at + |EscapeChar(c)|; FindEnd(s, at) == FindEnd(s, next) && StandsAt(s, next, more)
  {
    StandsSplit(s, at, EscapeChar(c), more);
    ScanPassesChar(s, at, c);
  }

  /** The scan for the closing quote passes over any escaped value. */
  lemma {:induction false} ScanPassesEscaped(s: string, at: nat, v: string)
    requires at >= 1 && StandsAt(s, at, Escape(v))
    ensures FindEnd(s, at) == FindEnd(s, at + |Escape(v)|)
    decreases |v|
  {
    if v == "" {
    } else {
      ScanPassesFirst(s, at, v[0], Escape(v[1..]));
      ScanPassesEscaped(s, at + |EscapeChar(v[0])|, v[1..]);
    }
  }

  /** The last character of an escaped value is a backslash exactly when the value's is. */
  lemma {:induction false} EscapedEnd(v: string)
    requires v != ""
    ensures Escape(v) != "" && (Escape(v)[|Escape(v)| - 1] == '\\' <==> EndsInBackslash(v))
    decreases |v|
  {
    if |v| == 1 {
      assert Escape(v) == EscapeChar(v[0]) + "";
    } else {
      EscapedEnd(v[1..]);
      assert Escape(v)[|Escape(v)| - 1] == Escape(v[1..])[|Escape(v[1..])| - 1];
    }
  }

  /** An escaped value unquotes to itself, and only when nothing follows its closing quote. */
  lemma {:induction false} UnquoteEscaped(v: string, more: string)
    ensures UnquoteBody(Escape(v) + "\"" + more) == if more == "" then Some(v) else None
    decreases |v|
  {
    var s := Escape(v) + "\"" + more;
    if v == "" {
      assert s == "\"" + more;
    } else {
      var e := EscapeChar(v[0]);
      var rest := Escape(v[1..]) + "\"" + more;
      assert s == e + rest;
      UnquoteEscaped(v[1..], more);
      assert v == [v[0]] + v[1..];
      if |e| == 2 {
        assert s[1..][1..] == rest;
        assert UnescapeChar(s[1..]) == Some((v[0], rest));
      } else {
        assert s[1..] == rest;
      }
    }
  }

  function Quoted(v: string): string { "\"" + Escape(v) + "\"" }

  /** What stands before and at the closing quote of a printed value. */
  lemma AtClosingQuote(v: string, post: string)
    ensures var s, close := Quoted(v) + post, |Escape(v)| + 1;
            && close < |s| && StandsAt(s, 1, Escape(v)) && s[close] == '"'
            && (s[close - 1] == '\\' <==> EndsInBackslash(v))
  {
    var s, close := Quoted(v) + post, |Escape(v)| + 1;
    assert s[1..close] == Escape(v);
    if v == "" {
      assert s[close - 1] == '"';
    } else {
      EscapedEnd(v);
      assert s[close - 1] == Escape(v)[|Escape(v)| - 1];
    }
  }

  /** The closing quote is found exactly where it was printed, unless a backslash stands before it. */
  lemma ClosingQuote(v: string, post: string)
    ensures var s := Quoted(v) + post;
            && (!EndsInBackslash(v) ==> FindEnd(s, 1) == |Escape(v)| + 1)
            && (EndsInBackslash(v) ==> FindEnd(s, 1) > |Escape(v)| + 1)
  {
    AtClosingQuote(v, post);
    ScanPassesEscaped(Quoted(v) + post, 1, v);
  }

  /** The literal that is cut out when the scan ends at `end`: the printed one, or one with text after its quote. */
  lemma CutLiteral(v: string, post: string, end: nat)
    requires |Escape(v)| + 1 <= end < |Quoted(v) + post|
    ensures Unquote((Quoted(v) + post)[..end + 1]) == if end == |Escape(v)| + 1 then Some(v) else None
  {
    var rest := Quoted(v) + post;
    var more := post[..end - |Escape(v)| - 1];
    var cut := rest[..end + 1];
    assert cut == Quoted(v) + more;
    assert cut[1..] == Escape(v) + "\"" + more;
    UnquoteEscaped(v, more);
  }

  /** What the quoted part gives once the end of the literal has been located. */
  lemma UnquotePrinted(v: string, post: string)
    ensures var rest := Quoted(v) + post;
            var end := FindEnd(rest, 1);
            if EndsInBackslash(v) then end < |rest| ==> Unquote(rest[..end + 1]) == None
            else end < |rest| && Unquote(rest[..end + 1]) == Some(v) && rest[end + 1..] == post
  {
    ClosingQuote(v, post);
    var rest := Quoted(v) + post;
    var end := FindEnd(rest, 1);
    if end < |rest| {
      CutLiteral(v, post, end);
    }
  }

  lemma LiteralPrinted(v: string, post: string)
    ensures Literal(Quoted(v) + post) == if EndsInBackslash(v) then None else Some((v, TrimComma(post)))
  {
    UnquotePrinted(v, post);
  }

  /** The first '=' of a printed label is the one after its name. */
  lemma NameRead(name: string, rest: string)
    requires GoodName(name)
    ensures IndexOfEquals(name + "=" + rest) == |name|
    ensures (name + "=" + rest)[..|name|] == name && (name + "=" + rest)[|name| + 1..] == rest
  {
    var s := name + "=" + rest;
    assert s[|name|] == '=' && forall j :: 0 <= j < |name| ==> s[j] == name[j];
  }

  /** One printed label at the front: it is recorded and parsing goes on, or parsing stops before it. */
  lemma ParseOneLabel(l: Label, post: string, labels: map<string, string>)
    requires GoodName(l.name)
    ensures Parse(PrintLabel(l) + post, labels) ==
            if EndsInBackslash(l.value) then labels else Parse(TrimComma(post), labels[l.name := l.value])
  {
    var rest := Quoted(l.value) + post;
    assert PrintLabel(l) + post == l.name + "=" + rest;
    assert rest[0] == '"';
    NameRead(l.name, rest);
    LiteralPrinted(l.value, post);
  }

  /** What the parser makes of any printed list: exactly the labels before the first value ending in a backslash. */
  lemma {:induction false} ParsePrinted(ls: seq<Label>, labels: map<string, string>)
    requires forall l :: l in ls ==> GoodName(l.name)
    ensures Parse(Print(ls), labels) == Record(labels, Readable(ls))
    decreases |ls|
  {
    if ls == [] {
    } else {
      var post := if |ls| == 1 then "" else "," + Print(ls[1..]);
      assert Print(ls) == PrintLabel(ls[0]) + post;
      ParseOneLabel(ls[0], post, labels);
      if !EndsInBackslash(ls[0].value) {
        assert TrimComma(post) == Print(ls[1..]);
        ParsePrinted(ls[1..], labels[ls[0].name := ls[0].value]);
        assert Readable(ls)[1..] == Readable(ls[1..]);
      }
    }
  }

  predicate DistinctNames(ls: seq<Label>) {
    forall i, j :: 0 <= i < j < |ls| ==> ls[i].name != ls[j].name
  }

  predicate Names(ls: seq<Label>, k: string) { exists l :: l in ls && l.name == k }

  /** The map holds the labels of the list and nothing else. */
  ghost predicate StandsFor(m: map<string, string>, ls: seq<Label>) {
    && (forall l :: l in ls ==> l.name in m && m[l.name] == l.value)
    && (forall k :: k in m ==> Names(ls, k))
  }

  /** Recording labels with distinct names adds them and changes no other name. */
  lemma {:induction false} Recorded(labels: map<string, string>, ls: seq<Label>)
    requires DistinctNames(ls)
    ensures var r := Record(labels, ls);
            && (forall l :: l in ls ==> l.name in r && r[l.name] == l.value)
            && (forall k :: k in r ==> k in labels || Names(ls, k))
            && (forall k :: k in labels && !Names(ls, k) ==> k in r && r[k] == labels[k])
    decreases |ls|
  {
    if ls != [] {
      var l, rest := ls[0], ls[1..];
      assert ls == [l] + rest;
      assert !Names(rest, l.name);
      assert forall k :: Names(ls, k) <==> k == l.name || Names(rest, k);
      Recorded(labels[l.name := l.value], rest);
    }
  }

  lemma {:induction false} ReadablePrefix(ls: seq<Label>)
    ensures Readable(ls) <= ls
    ensures Readable(ls) == ls <==> forall l :: l in ls ==> !EndsInBackslash(l.value)
    decreases |ls|
  {
    if ls != [] {
      ReadablePrefix(ls[1..]);
      assert ls == [ls[0]] + ls[1..];
    }
  }

  /** A map that stands for a list of distinct names stands for no longer one. */
  lemma PrefixMap(m: map<string, string>, ls: seq<Label>, r: seq<Label>)
    requires DistinctNames(ls) && r <= ls && StandsFor(m, r)
    ensures StandsFor(m, ls) <==> r == ls
  {
    if |r| < |ls| {
      var lost := ls[|r|];
      assert lost in ls && !Names(r, lost.name);
    } else {
      assert r == ls;
    }
  }

  /**
   * Printing and then parsing a label list with distinct good names gives back exactly those labels if and
   * only if no value ends in a backslash.
   */
  lemma RoundTrip(ls: seq<Label>)
    requires DistinctNames(ls) && forall l :: l in ls ==> GoodName(l.name)
    ensures StandsFor(Parse(Print(ls), map[]), ls) <==> forall l :: l in ls ==> !EndsInBackslash(l.value)
  {
    ParsePrinted(ls, map[]);
    ReadablePrefix(ls);
    var r := Readable(ls);
    assert DistinctNames(r);
    Recorded(map[], r);
    PrefixMap(Record(map[], r), ls, r);
  }
}
