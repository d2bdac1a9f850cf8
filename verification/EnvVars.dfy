/** convertEnvVars of ucl-node: a quote-aware scan of `key=value` words, then the outermost quotes come off. */
module EnvVars {
  import opened Basics

  // ---- specification ----------------------------------------------------------------

  /** The scanner's variables: quote flags, parseType, envKey, currentSegment, envSegments. */
  datatype Scan = Scan(single: bool, double: bool, inValue: bool, key: string, cur: string, out: seq<string>)

  const START := Scan(false, false, false, "", "", [])

  function Quotes(s: Scan, c: char): Scan {
    if c == '"' then s.(double := !s.double)
    else if c == '\'' then s.(single := !s.single)
    else s
  }

  function Step(s0: Scan, c: char): Scan {
    var s := Quotes(s0, c);
    if s.single || s.double then s.(cur := s.cur + [c])
    else if c == '=' && !s.inValue then s.(key := s.cur + [c], cur := "", inValue := true)
    else if c == ' ' && |s.cur| > 0 && s.inValue then
      s.(out := s.out + [s.key + s.cur], cur := "", inValue := false, key := "")
    else if c == ' ' then s
    else s.(cur := s.cur + [c])
  }

  function ScanAll(s: Scan, text: string): Scan
    decreases |text|
  {
    if text == "" then s else ScanAll(Step(s, text[0]), text[1..])
  }

  /** The segments before any quote is removed. */
  function Segments(env: string): seq<string> {
    var s := ScanAll(START, env);
    if s.inValue then s.out + [s.key + s.cur] else s.out
  }

  /** A key at the end without its '=' is dropped. */
  function Dropped(env: string): string {
    var s := ScanAll(START, env);
    if s.inValue then "" else s.cur
  }

  /** The first occurrence, or the length when there is none. */
  function IndexOf(s: string, c: char): (k: nat)
    ensures k <= |s| && c !in s[..k] && (k < |s| ==> s[k] == c) && (k < |s| <==> c in s)
  {
    if s == "" || s[0] == c then 0 else
    var k := IndexOf(s[1..], c) + 1;
    assert s[..k] == [s[0]] + s[1..][..k - 1];
    k
  }

  function Unquote(value: string): string {
    if |value| >= 2 && value[0] == value[|value| - 1] && (value[0] == '"' || value[0] == '\'')
    then value[1..|value| - 1] else value
  }

  /** The second pass on one segment. */
  function Strip(segment: string): string
    requires '=' in segment
  {
    var k := IndexOf(segment, '=');
    segment[..k] + "=" + Unquote(segment[k + 1..])
  }

  function StripAll(segments: seq<string>): (r: seq<string>)
    requires forall x :: x in segments ==> '=' in x
    ensures |r| == |segments| && forall i :: 0 <= i < |r| ==> r[i] == Strip(segments[i])
  {
    if segments == [] then [] else [Strip(segments[0])] + StripAll(segments[1..])
  }

  function Convert(env: string): seq<string> {
    SegmentsHaveEquals(env);
    StripAll(Segments(env))
  }

  // ---- safety and conservation ------------------------------------------------------

  predicate HasKeys(s: Scan) {
    && (s.inValue ==> '=' in s.key)
    && (!s.inValue ==> s.key == "")
    && forall x :: x in s.out ==> '=' in x
  }

  lemma {:induction false} ScanHasKeys(s: Scan, text: string)
    requires HasKeys(s)
    ensures HasKeys(ScanAll(s, text))
    decreases |text|
  {
    if text != "" { ScanHasKeys(Step(s, text[0]), text[1..]); }
  }

  /** Every segment has a '=', whatever the input: the second pass always finds a value. */
  lemma SegmentsHaveEquals(env: string)
    ensures forall x :: x in Segments(env) ==> '=' in x
  {
    ScanHasKeys(START, env);
  }

  /** The text without its unquoted spaces. */
  function Kept(single: bool, double: bool, text: string): string
    decreases |text|
  {
    if text == "" then "" else
    var c := text[0];
    var d := if c == '"' then !double else double;
    var s := if c == '\'' then !single else single;
    (if c == ' ' && !s && !d then "" else [c]) + Kept(s, d, text[1..])
  }

  function Concat(parts: seq<string>): string {
    if parts == [] then "" else parts[0] + Concat(parts[1..])
  }

  lemma ConcatAppend(parts: seq<string>, x: string)
    ensures Concat(parts + [x]) == Concat(parts) + x
  {
    if parts == [] {
      assert parts + [x] == [x];
    } else {
      assert (parts + [x])[1..] == parts[1..] + [x];
      ConcatAppend(parts[1..], x);
    }
  }

  function Collected(s: Scan): string { Concat(s.out) + s.key + s.cur }

  lemma StepCollects(s: Scan, c: char)
    requires HasKeys(s)
    ensures HasKeys(Step(s, c))
    ensures var q := Quotes(s, c);
      Collected(Step(s, c)) == Collected(s) + (if c == ' ' && !q.single && !q.double then "" else [c])
  {
    var q, r := Quotes(s, c), Step(s, c);
    assert Collected(q) == Collected(s);
    if r == q.(cur := q.cur + [c]) {
      Associate(Concat(s.out) + s.key, s.cur, [c]);
    } else if r == q {
      assert Collected(s) + "" == Collected(s);
    } else if c == '=' {
      assert s.key == "" && Concat(s.out) + "" == Concat(s.out);
      Associate(Concat(s.out), s.cur, [c]);
      assert Collected(r) == Concat(s.out) + (s.cur + [c]);
    } else {
      ConcatAppend(s.out, s.key + s.cur);
      Associate(Concat(s.out), s.key, s.cur);
      assert Collected(r) == Concat(s.out) + (s.key + s.cur);
      assert Collected(s) + "" == Collected(s);
    }
  }

  lemma {:induction false} ScanCollects(s: Scan, text: string)
    requires HasKeys(s)
    ensures Collected(ScanAll(s, text)) == Collected(s) + Kept(s.single, s.double, text)
    decreases |text|
  {
    if text != "" {
      var q := Quotes(s, text[0]);
      var kept := if text[0] == ' ' && !q.single && !q.double then "" else [text[0]];
      StepCollects(s, text[0]);
      ScanCollects(Step(s, text[0]), text[1..]);
      Associate(Collected(s), kept, Kept(q.single, q.double, text[1..]));
    } else {
      assert Collected(s) + "" == Collected(s);
    }
  }

  /** Nothing is lost or invented: the segments and the dropped key, put together, are the
      input without its unquoted spaces. */
  lemma Conservation(env: string)
    ensures Concat(Segments(env)) + Dropped(env) == Kept(false, false, env)
  {
    ScanCollects(START, env);
    ScanHasKeys(START, env);
    var s := ScanAll(START, env);
    if s.inValue {
      ConcatAppend(s.out, s.key + s.cur);
      Associate(Concat(s.out), s.key, s.cur);
    } else {
      assert Concat(s.out) + "" == Concat(s.out);
    }
  }

  // ---- which quotes come off --------------------------------------------------------

  predicate IsQuote(c: char) { c == '"' || c == '\'' }

  lemma {:induction false} IndexOfAt(s: string, c: char, k: nat)
    requires k < |s| && s[k] == c && c !in s[..k]
    ensures IndexOf(s, c) == k
    decreases k
  {
    if k > 0 {
      assert s[..k][0] == s[0] && s[1..][..k - 1] == s[..k][1..];
      IndexOfAt(s[1..], c, k - 1);
    }
  }

  /** The key ends at the first '='. */
  lemma StripSplits(k: string, w: string)
    requires '=' !in k
    ensures '=' in k + "=" + w
    ensures Strip(k + "=" + w) == k + "=" + Unquote(w)
  {
    var seg := k + "=" + w;
    assert seg[|k|] == '=' && seg[..|k|] == k;
    IndexOfAt(seg, '=', |k|);
    assert seg[|k| + 1..] == w;
  }

  /** One pair of enclosing quotes, of either kind, comes off. */
  lemma QuotesComeOff(k: string, v: string, q: char)
    requires '=' !in k && (q == '"' || q == '\'')
    ensures '=' in k + "=" + ([q] + v + [q])
    ensures Strip(k + "=" + ([q] + v + [q])) == k + "=" + v
  {
    StripSplits(k, [q] + v + [q]);
    assert ([q] + v + [q])[1..|v| + 1] == v;
  }

  /** Any other value stays as it is. */
  lemma OthersStay(k: string, w: string)
    requires '=' !in k
    requires |w| < 2 || w[0] != w[|w| - 1] || (w[0] != '"' && w[0] != '\'')
    ensures '=' in k + "=" + w
    ensures Strip(k + "=" + w) == k + "=" + w
  {
    StripSplits(k, w);
  }

  // ---- round trip -------------------------------------------------------------------

  /** How a value is written: as it is, or between quotes. */
  datatype Style = Bare | Quoted(q: char)

  /** A pair, and the number of spaces before the next one, less one. */
  datatype Pair = Pair(key: string, value: string, style: Style, gap: nat)

  predicate NoQuotes(s: string) { '"' !in s && '\'' !in s }

  predicate Printable(p: Pair) {
    && '=' !in p.key && ' ' !in p.key && NoQuotes(p.key)
    && match p.style
       case Bare => ' ' !in p.value && NoQuotes(p.value)
       case Quoted(q) => IsQuote(q) && q !in p.value
  }

  function Other(q: char): char { if q == '"' then '\'' else '"' }

  predicate Even(v: string, c: char) {
    if v == "" then true else if v[0] == c then !Even(v[1..], c) else Even(v[1..], c)
  }

  /** The scanner is ready for the next pair after this one: the other kind of quote is closed,
      and a bare value is not empty. */
  predicate Closed(p: Pair) {
    match p.style
    case Bare => p.value != ""
    case Quoted(q) => Even(p.value, Other(q))
  }

  /** All pairs but the last are closed. */
  predicate Balanced(ps: seq<Pair>) { |ps| <= 1 || (Closed(ps[0]) && Balanced(ps[1..])) }

  lemma {:induction false} BalancedMeans(ps: seq<Pair>)
    ensures Balanced(ps) <==> forall i :: 0 <= i < |ps| - 1 ==> Closed(ps[i])
  {
    if |ps| > 1 {
      BalancedMeans(ps[1..]);
      assert forall i :: 1 <= i < |ps| ==> ps[i] == ps[1..][i - 1];
      if forall i :: 0 <= i < |ps| - 1 ==> Closed(ps[i]) {
        assert forall i :: 0 <= i < |ps[1..]| - 1 ==> ps[1..][i] == ps[i + 1];
      }
    }
  }

  predicate AllPrintable(ps: seq<Pair>) { ps == [] || (Printable(ps[0]) && AllPrintable(ps[1..])) }

  lemma {:induction false} AllPrintableMeans(ps: seq<Pair>)
    ensures AllPrintable(ps) <==> forall p :: p in ps ==> Printable(p)
  {
    if ps != [] {
      AllPrintableMeans(ps[1..]);
      assert forall p :: p in ps <==> p == ps[0] || p in ps[1..];
    }
  }

  function Spaces(n: nat): string { seq(n, _ => ' ') }

  function Raw(p: Pair): string {
    match p.style
    case Bare => p.value
    case Quoted(q) => [q] + p.value + [q]
  }

  function Print(p: Pair): string { p.key + "=" + Raw(p) }

  function Text(ps: seq<Pair>): string {
    if ps == [] then ""
    else if |ps| == 1 then Print(ps[0])
    else Print(ps[0]) + (Spaces(ps[0].gap + 1) + Text(ps[1..]))
  }

  function Assignments(ps: seq<Pair>): (r: seq<string>)
    ensures |r| == |ps| && forall i :: 0 <= i < |r| ==> r[i] == ps[i].key + "=" + ps[i].value
  {
    if ps == [] then [] else [ps[0].key + "=" + ps[0].value] + Assignments(ps[1..])
  }

  /** The segments a scan ends with. */
  function Final(s: Scan): seq<string> { if s.inValue then s.out + [s.key + s.cur] else s.out }

  lemma {:induction false} ScanConcat(s: Scan, a: string, b: string)
    ensures ScanAll(s, a + b) == ScanAll(ScanAll(s, a), b)
    decreases |a|
  {
    if a == "" {
      assert a + b == b;
    } else {
      assert (a + b)[1..] == a[1..] + b;
      ScanConcat(Step(s, a[0]), a[1..], b);
    }
  }

  lemma ScanOne(s: Scan, c: char)
    ensures ScanAll(s, [c]) == Step(s, c)
  {
    assert [c][1..] == "" && ScanAll(Step(s, c), "") == Step(s, c);
  }

  /** Outside quotes, ordinary characters are collected. */
  lemma {:induction false} ScanPlain(s: Scan, v: string)
    requires !s.single && !s.double && ' ' !in v && NoQuotes(v) && ('=' in v ==> s.inValue)
    ensures ScanAll(s, v) == s.(cur := s.cur + v)
    decreases |v|
  {
    if v != "" {
      assert v[0] in v;
      ScanPlain(Step(s, v[0]), v[1..]);
      assert s.cur + [v[0]] + v[1..] == s.cur + v;
    } else {
      assert s.cur + v == s.cur;
    }
  }

  /** Inside one kind of quotes everything is collected, and only the other flag moves. */
  lemma {:induction false} ScanInside(s: Scan, v: string, q: char)
    requires IsQuote(q) && q !in v && (if q == '"' then s.double else s.single)
    ensures ScanAll(s, v) == s.(cur := s.cur + v,
                                single := if q == '"' && !Even(v, '\'') then !s.single else s.single,
                                double := if q == '\'' && !Even(v, '"') then !s.double else s.double)
    decreases |v|
  {
    if v != "" {
      assert v[0] in v;
      ScanInside(Step(s, v[0]), v[1..], q);
      assert s.cur + [v[0]] + v[1..] == s.cur + v;
    } else {
      assert s.cur + v == s.cur;
    }
  }

  /** Scanning the value of a pair. */
  lemma ScanRaw(s: Scan, p: Pair)
    requires !s.single && !s.double && s.inValue && s.cur == "" && Printable(p)
    ensures ScanAll(s, Raw(p)) == s.(cur := Raw(p),
                                     single := p.style == Quoted('"') && !Closed(p),
                                     double := p.style == Quoted('\'') && !Closed(p))
  {
    match p.style
    case Bare =>
      ScanPlain(s, p.value);
      assert "" + p.value == p.value;
    case Quoted(q) =>
      var s1 := Step(s, q);
      assert s1.cur == [q];
      var s2 := ScanAll(s1, p.value);
      ScanInside(s1, p.value, q);
      ScanOne(s, q);
      ScanOne(s2, q);
      ScanConcat(s, [q], p.value);
      ScanConcat(s, [q] + p.value, [q]);
  }

  /** Scanning a pair where one is expected. */
  lemma ScanPrint(out: seq<string>, p: Pair)
    requires Printable(p)
    ensures ScanAll(START.(out := out), Print(p)) ==
            Scan(p.style == Quoted('"') && !Closed(p), p.style == Quoted('\'') && !Closed(p),
                 true, p.key + "=", Raw(p), out)
  {
    var s := START.(out := out);
    ScanPlain(s, p.key);
    assert "" + p.key == p.key;
    var s1 := ScanAll(s, p.key);
    ScanOne(s1, '=');
    ScanConcat(s, p.key, "=");
    ScanConcat(s, p.key + "=", Raw(p));
    ScanRaw(Step(s1, '='), p);
  }

  lemma {:induction false} ScanSpaces(s: Scan, n: nat)
    requires !s.single && !s.double
    ensures n > 0 && s.inValue && s.cur != "" ==> ScanAll(s, Spaces(n)) == START.(out := s.out + [s.key + s.cur])
    ensures s.cur == "" ==> ScanAll(s, Spaces(n)) == s
    decreases n
  {
    if n > 0 {
      assert Spaces(n)[1..] == Spaces(n - 1);
      ScanSpaces(Step(s, ' '), n - 1);
    }
  }

  lemma ScanText(s: Scan, ps: seq<Pair>)
    requires |ps| >= 2
    ensures ScanAll(s, Text(ps)) == ScanAll(ScanAll(ScanAll(s, Print(ps[0])), Spaces(ps[0].gap + 1)), Text(ps[1..]))
  {
    ScanConcat(s, Print(ps[0]), Spaces(ps[0].gap + 1) + Text(ps[1..]));
    ScanConcat(ScanAll(s, Print(ps[0])), Spaces(ps[0].gap + 1), Text(ps[1..]));
  }

  /** After a closed pair and its spaces, the next pair is expected. */
  lemma ScanClosed(out: seq<string>, ps: seq<Pair>)
    requires |ps| >= 2 && Printable(ps[0]) && Closed(ps[0])
    ensures ScanAll(START.(out := out), Text(ps)) == ScanAll(START.(out := out + [Print(ps[0])]), Text(ps[1..]))
  {
    ScanText(START.(out := out), ps);
    ScanPrint(out, ps[0]);
    ScanSpaces(ScanAll(START.(out := out), Print(ps[0])), ps[0].gap + 1);
  }

  function Prints(ps: seq<Pair>): seq<string> {
    if ps == [] then [] else [Print(ps[0])] + Prints(ps[1..])
  }

  lemma PrintsCons(out: seq<string>, ps: seq<Pair>)
    requires ps != []
    ensures out + [Print(ps[0])] + Prints(ps[1..]) == out + Prints(ps)
  {
  }

  lemma ScanLast(out: seq<string>, ps: seq<Pair>)
    requires |ps| == 1 && AllPrintable(ps)
    ensures Final(ScanAll(START.(out := out), Text(ps))) == out + Prints(ps)
  {
    ScanPrint(out, ps[0]);
    assert Prints(ps) == [Print(ps[0])];
  }

  lemma {:induction false} BalancedScan(out: seq<string>, ps: seq<Pair>)
    requires |ps| > 0 && AllPrintable(ps) && Balanced(ps)
    ensures Final(ScanAll(START.(out := out), Text(ps))) == out + Prints(ps)
    decreases |ps|
  {
    if |ps| > 1 {
      ScanClosed(out, ps);
      BalancedScan(out + [Print(ps[0])], ps[1..]);
      PrintsCons(out, ps);
    } else {
      ScanLast(out, ps);
    }
  }

  lemma StripPrint(p: Pair)
    requires Printable(p)
    ensures '=' in Print(p) && Strip(Print(p)) == p.key + "=" + p.value
  {
    match p.style
    case Bare =>
      if p.value != "" { assert p.value[0] in p.value; }
      OthersStay(p.key, p.value);
    case Quoted(q) => QuotesComeOff(p.key, p.value, q);
  }

  lemma {:induction false} StripPrints(ps: seq<Pair>)
    requires AllPrintable(ps)
    ensures forall x :: x in Prints(ps) ==> '=' in x
    ensures StripAll(Prints(ps)) == Assignments(ps)
  {
    if ps != [] {
      assert Printable(ps[0]);
      StripPrint(ps[0]);
      StripPrints(ps[1..]);
      assert Prints(ps)[1..] == Prints(ps[1..]);
    }
  }

  // ---- a pair that is not closed spoils its segment ---------------------------------

  /** Finished segments stay. */
  lemma {:induction false} OutStays(s: Scan, text: string)
    ensures s.out <= Final(ScanAll(s, text))
    decreases |text|
  {
    if text != "" { OutStays(Step(s, text[0]), text[1..]); }
  }

  /** So does what the segment being collected begins with. */
  lemma {:induction false} SegmentGrows(s: Scan, text: string)
    requires s.inValue
    ensures var segs := Final(ScanAll(s, text)); |segs| > |s.out| && s.key + s.cur <= segs[|s.out|]
    decreases |text|
  {
    if text != "" {
      var s1 := Step(s, text[0]);
      if s1.inValue {
        SegmentGrows(s1, text[1..]);
        assert s.key + s.cur <= s1.key + s1.cur;
      } else {
        OutStays(s1, text[1..]);
      }
    }
  }

  /** A segment that begins with the key, and whose value is longer by more than its quotes or
      is not quoted, is not the assignment. */
  lemma WrongSegment(seg: string, k: string, w: string, v: string)
    requires '=' !in k && k + "=" + w <= seg
    requires |w| > |v| + 2 || (|w| > |v| && !IsQuote(w[0]))
    ensures '=' in seg && Strip(seg) != k + "=" + v
  {
    var value := seg[|k| + 1..];
    assert seg == k + "=" + value && w <= value;
    StripSplits(k, value);
    assert |Strip(seg)| > |k| + 1 + |v|;
  }

  lemma OpenQuote(out: seq<string>, ps: seq<Pair>)
    requires |ps| >= 2 && Printable(ps[0]) && ps[0].style.Quoted? && !Closed(ps[0])
    ensures var segs := Final(ScanAll(START.(out := out), Text(ps)));
      |segs| > |out| && '=' in segs[|out|] && Strip(segs[|out|]) != ps[0].key + "=" + ps[0].value
  {
    var s, p := START.(out := out), ps[0];
    ScanText(s, ps);
    ScanPrint(out, p);
    var r := ScanAll(s, Print(p));
    assert Spaces(p.gap + 1)[0] == ' ' && Spaces(p.gap + 1)[1..] == Spaces(p.gap);
    var r1 := Step(r, ' ');
    ScanConcat(r1, Spaces(p.gap), Text(ps[1..]));
    SegmentGrows(r1, Spaces(p.gap) + Text(ps[1..]));
    assert r1.key + r1.cur == p.key + "=" + (Raw(p) + " ");
    WrongSegment(Final(ScanAll(s, Text(ps)))[|out|], p.key, Raw(p) + " ", p.value);
  }

  lemma TextHead(ps: seq<Pair>) returns (tail: string)
    requires ps != []
    ensures Text(ps) == ps[0].key + "=" + tail
  {
    tail := if |ps| == 1 then Raw(ps[0]) else Raw(ps[0]) + (Spaces(ps[0].gap + 1) + Text(ps[1..]));
    if |ps| > 1 { Associate(ps[0].key + "=", Raw(ps[0]), Spaces(ps[0].gap + 1) + Text(ps[1..])); }
  }

  /** The next key ends up in an empty bare value. */
  lemma EmptyBare(out: seq<string>, ps: seq<Pair>)
    requires |ps| >= 2 && Printable(ps[0]) && Printable(ps[1]) && ps[0].style.Bare? && !Closed(ps[0])
    ensures var segs := Final(ScanAll(START.(out := out), Text(ps)));
      |segs| > |out| && '=' in segs[|out|] && Strip(segs[|out|]) != ps[0].key + "=" + ps[0].value
  {
    var s, p, next := START.(out := out), ps[0], ps[1].key;
    ScanText(s, ps);
    ScanPrint(out, p);
    var r := ScanAll(s, Print(p));
    ScanSpaces(r, p.gap + 1);
    var tail := TextHead(ps[1..]);
    ScanPlain(r, next + "=");
    assert "" + (next + "=") == next + "=";
    var r1 := ScanAll(r, next + "=");
    ScanConcat(r, next + "=", tail);
    SegmentGrows(r1, tail);
    assert r1.key + r1.cur == p.key + "=" + (next + "=");
    assert !IsQuote((next + "=")[0]) by { if next != "" { assert next[0] in next; } }
    WrongSegment(Final(ScanAll(s, Text(ps)))[|out|], p.key, next + "=", p.value);
  }

  /** Segment `j` of the result is there and is not the assignment it should be. */
  ghost predicate Spoilt(segs: seq<string>, out: seq<string>, ps: seq<Pair>, j: int) {
    && 0 <= j < |ps| && |out| + j < |segs| && '=' in segs[|out| + j]
    && Strip(segs[|out| + j]) != ps[j].key + "=" + ps[j].value
  }

  lemma SpoiltLater(segs: seq<string>, out: seq<string>, ps: seq<Pair>, j: int)
    requires ps != [] && Spoilt(segs, out + [Print(ps[0])], ps[1..], j)
    ensures Spoilt(segs, out, ps, j + 1)
  {
  }

  lemma {:induction false} UnbalancedScan(out: seq<string>, ps: seq<Pair>)
    requires |ps| >= 2 && AllPrintable(ps) && !Balanced(ps)
    ensures exists j :: Spoilt(Final(ScanAll(START.(out := out), Text(ps))), out, ps, j)
    decreases |ps|
  {
    var segs := Final(ScanAll(START.(out := out), Text(ps)));
    if Closed(ps[0]) {
      ScanClosed(out, ps);
      UnbalancedScan(out + [Print(ps[0])], ps[1..]);
      var j :| Spoilt(segs, out + [Print(ps[0])], ps[1..], j);
      SpoiltLater(segs, out, ps, j);
    } else {
      if ps[0].style.Bare? { EmptyBare(out, ps); } else { OpenQuote(out, ps); }
      assert Spoilt(segs, out, ps, 0);
    }
  }

  /** Printed pairs come back as key=value, in order, exactly when every pair but the last is
      closed: a value between double quotes holds an even number of single quotes and the other
      way round, since both flags toggle independently, and a bare value is not empty. */
  lemma RoundTrip(ps: seq<Pair>)
    requires forall p :: p in ps ==> Printable(p)
    ensures Convert(Text(ps)) == Assignments(ps) <==> forall i :: 0 <= i < |ps| - 1 ==> Closed(ps[i])
  {
    BalancedMeans(ps);
    AllPrintableMeans(ps);
    PrintedPairs(ps);
  }

  lemma PrintedPairs(ps: seq<Pair>)
    requires AllPrintable(ps)
    ensures Convert(Text(ps)) == Assignments(ps) <==> Balanced(ps)
  {
    if ps != [] {
      SegmentsHaveEquals(Text(ps));
      assert Segments(Text(ps)) == Final(ScanAll(START.(out := []), Text(ps)));
      if Balanced(ps) {
        BalancedScan([], ps);
        assert [] + Prints(ps) == Prints(ps);
        StripPrints(ps);
      } else {
        UnbalancedScan([], ps);
        var j :| Spoilt(Segments(Text(ps)), [], ps, j);
        assert Convert(Text(ps))[j] != Assignments(ps)[j];
      }
    }
  }

  // ---- the method -------------------------------------------------------------------

  /** The scan over the characters. */
  method ScanSegments(envString: string) returns (envSegments: seq<string>)
    ensures envSegments == Segments(envString)
  {
    envSegments := [];
    var insideSingleQuotes, insideDoubleQuotes := false, false;
    var inValue := false;   // parseType == "value"
    var envKey, currentSegment := "", "";
    var i := 0;
    while i < |envString|
      invariant i <= |envString|
      invariant ScanAll(START, envString) ==
        ScanAll(Scan(insideSingleQuotes, insideDoubleQuotes, inValue, envKey, currentSegment, envSegments), envString[i..])
    {
      var c := envString[i];
      ghost var before := Scan(insideSingleQuotes, insideDoubleQuotes, inValue, envKey, currentSegment, envSegments);
      if c == '"' {
        insideDoubleQuotes := !insideDoubleQuotes;
      } else if c == '\'' {
        insideSingleQuotes := !insideSingleQuotes;
      }
      if !insideDoubleQuotes && !insideSingleQuotes {
        if c == '=' && !inValue {
          currentSegment := currentSegment + [c];
          envKey := currentSegment;
          currentSegment := "";
          inValue := true;
        } else if c == ' ' && |currentSegment| > 0 && inValue {
          envSegments := envSegments + [envKey + currentSegment];
          currentSegment, envKey := "", "";
          inValue := false;
        } else if c != ' ' {
          currentSegment := currentSegment + [c];
        }
      } else {
        currentSegment := currentSegment + [c];
      }
      assert Scan(insideSingleQuotes, insideDoubleQuotes, inValue, envKey, currentSegment, envSegments) == Step(before, c);
      assert envString[i..][1..] == envString[i + 1..];
      i := i + 1;
    }
    if inValue {
      envSegments := envSegments + [envKey + currentSegment];
    }
  }

  /** One segment of the second pass. */
  method StripOne(envSegment: string) returns (r: string)
    requires '=' in envSegment
    ensures r == Strip(envSegment)
  {
    var k := IndexOf(envSegment, '=');
    var key, value := envSegment[..k], envSegment[k + 1..];
    if |value| >= 2 && ((value[0] == '"' && value[|value| - 1] == '"') || (value[0] == '\'' && value[|value| - 1] == '\'')) {
      value := value[1..|value| - 1];
    }
    r := key + "=" + value;
  }

  /** The second pass rewrites the segments in place. */
  method StripQuotes(segments: seq<string>) returns (envSegments: seq<string>)
    requires forall x :: x in segments ==> '=' in x
    ensures envSegments == StripAll(segments)
  {
    envSegments := segments;
    var i := 0;
    while i < |envSegments|
      invariant i <= |envSegments| == |segments|
      invariant forall j :: 0 <= j < i ==> envSegments[j] == Strip(segments[j])
      invariant forall j :: i <= j < |segments| ==> envSegments[j] == segments[j]
    {
      assert segments[i] in segments;
      var segment := StripOne(envSegments[i]);
      envSegments := envSegments[i := segment];
      i := i + 1;
    }
  }

  method ConvertEnvVars(envString: string) returns (envSegments: seq<string>)
    ensures envSegments == Convert(envString)
  {
    if |envString| == 0 {
      return [];
    }
    SegmentsHaveEquals(envString);
    envSegments := ScanSegments(envString);
    envSegments := StripQuotes(envSegments);
  }
}
