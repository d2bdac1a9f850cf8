/**
 The command line of a sender: printed by ucl-node into one string, split on spaces by
 TimingWrapper, and its screen argument parsed again by ucl-virtio-gpu-wl-send.
 */
module ArgLine {
  import opened Basics

  // ---- strings.Split and what it undoes ---------------------------------------------

  /** strings.Split(s, " ") */
  function Split(s: string): (parts: seq<string>)
    ensures |parts| > 0
    decreases |s|
  {
    if s == "" then [""]
    else
      var parts := Split(s[1..]);
      if s[0] == ' ' then [""] + parts else [[s[0]] + parts[0]] + parts[1..]
  }

  /** Words with a space between each two. */
  function Join(words: seq<string>): string
    requires words != []
  {
    if |words| == 1 then words[0] else words[0] + (" " + Join(words[1..]))
  }

  /** What Split means: parts without spaces that, joined by spaces, are the text. */
  lemma {:induction false} SplitJoins(s: string)
    ensures Join(Split(s)) == s
    ensures forall w :: w in Split(s) ==> ' ' !in w
    decreases |s|
  {
    if s != "" {
      SplitJoins(s[1..]);
      var parts := Split(s[1..]);
      assert s == [s[0]] + s[1..];
      if s[0] == ' ' {
        assert ([""] + parts)[1..] == parts;
        assert Join([""] + parts) == "" + (" " + Join(parts));
      } else {
        var head := [s[0]] + parts[0];
        assert ([head] + parts[1..])[1..] == parts[1..];
        assert parts[0] in parts;
        if |parts| > 1 { Associate([s[0]], parts[0], " " + Join(parts[1..])); }
      }
    }
  }

  /** Every word followed by a space, then the tail. */
  function Line(words: seq<string>, tail: string): string {
    if words == [] then tail else words[0] + (" " + Line(words[1..], tail))
  }

  function Blanks(s: string): nat {
    if s == "" then 0 else (if s[0] == ' ' then 1 else 0) + Blanks(s[1..])
  }

  function AllBlanks(words: seq<string>): nat {
    if words == [] then 0 else Blanks(words[0]) + AllBlanks(words[1..])
  }

  lemma {:induction false} BlanksConcat(a: string, b: string)
    ensures Blanks(a + b) == Blanks(a) + Blanks(b)
    decreases |a|
  {
    if a == "" {
      assert a + b == b;
    } else {
      assert (a + b)[1..] == a[1..] + b;
      BlanksConcat(a[1..], b);
    }
  }

  lemma {:induction false} NoBlanks(s: string)
    ensures Blanks(s) == 0 <==> ' ' !in s
    decreases |s|
  {
    if s != "" { NoBlanks(s[1..]); }
  }

  lemma {:induction false} SplitLength(s: string)
    ensures |Split(s)| == Blanks(s) + 1
    decreases |s|
  {
    if s != "" { SplitLength(s[1..]); }
  }

  lemma {:induction false} SplitWord(word: string, s: string)
    requires ' ' !in word
    ensures Split(word + (" " + s)) == [word] + Split(s)
    decreases |word|
  {
    if word == "" {
      assert word + (" " + s) == " " + s;
      assert (" " + s)[1..] == s;
    } else {
      assert (word + (" " + s))[1..] == word[1..] + (" " + s);
      SplitWord(word[1..], s);
      assert [word[0]] + word[1..] == word;
      assert ([word[1..]] + Split(s))[1..] == Split(s);
    }
  }

  lemma {:induction false} LineBlanks(words: seq<string>, tail: string)
    ensures Blanks(Line(words, tail)) == AllBlanks(words) + |words| + Blanks(tail)
  {
    if words != [] {
      BlanksConcat(words[0], " " + Line(words[1..], tail));
      BlanksConcat(" ", Line(words[1..], tail));
      assert Blanks(" ") == 1;
      LineBlanks(words[1..], tail);
    }
  }

  lemma {:induction false} SomeBlank(words: seq<string>)
    ensures AllBlanks(words) == 0 <==> forall w :: w in words ==> ' ' !in w
  {
    if words != [] {
      NoBlanks(words[0]);
      SomeBlank(words[1..]);
      assert forall w :: w in words ==> w == words[0] || w in words[1..];
    }
  }

  lemma Rejoin(words: seq<string>, more: seq<string>)
    requires words != []
    ensures [words[0]] + (words[1..] + more) == words + more
  {
  }

  lemma {:induction false} SplitWords(words: seq<string>, tail: string)
    requires forall w :: w in words ==> ' ' !in w
    ensures Split(Line(words, tail)) == words + Split(tail)
  {
    if words == [] {
      assert words + Split(tail) == Split(tail);
    } else {
      var rest := words[1..];
      SplitWord(words[0], Line(rest, tail));
      SplitWords(rest, tail);
      Rejoin(words, Split(tail));
    }
  }

  /** Words joined by spaces come back exactly when none of them holds a space. */
  lemma SplitLine(words: seq<string>, tail: string)
    ensures Split(Line(words, tail)) == words + Split(tail) <==> forall w :: w in words ==> ' ' !in w
  {
    if forall w :: w in words ==> ' ' !in w {
      SplitWords(words, tail);
    } else {
      SomeBlank(words);
      LineBlanks(words, tail);
      SplitLength(Line(words, tail));
      SplitLength(tail);
    }
  }

  // ---- numbers ----------------------------------------------------------------------

  function Digit(d: nat): char
    requires d < 10
  {
    '0' + d as char
  }

  predicate IsDigit(c: char) { '0' <= c <= '9' }

  function Digits(n: nat): (s: string)
    ensures |s| > 0 && forall c :: c in s ==> IsDigit(c)
  {
    if n < 10 then [Digit(n)] else Digits(n / 10) + [Digit(n % 10)]
  }

  /** strconv.Itoa */
  function Itoa(n: int): string { if n < 0 then "-" + Digits(-n) else Digits(n) }

  /** Reading digits as long as there are any, `acc` being the value so far. */
  function ScanDigits(acc: nat, s: string): (nat, string)
    decreases |s|
  {
    if s == "" || !IsDigit(s[0]) then (acc, s)
    else ScanDigits(acc * 10 + (s[0] as nat - '0' as nat), s[1..])
  }

  /** %d of fmt.Sscanf: an optional sign and at least one digit. */
  function ScanInt(s: string): Option<(int, string)> {
    var negative := s != "" && s[0] == '-';
    var digits := if s != "" && (s[0] == '-' || s[0] == '+') then s[1..] else s;
    if digits == "" || !IsDigit(digits[0]) then None
    else
      var (value, rest) := ScanDigits(0, digits);
      var n: int := value;
      Some((if negative then -n else n, rest))
  }

  /** fmt.Sscanf(screen, "%dx%d", &width, &height) */
  function ParseSize(screen: string): Option<(int, int)> {
    match ScanInt(screen)
    case None => None
    case Some(w) =>
      if w.1 == "" || w.1[0] != 'x' then None
      else match ScanInt(w.1[1..])
        case None => None
        case Some(h) => Some((w.0, h.0))
  }

  predicate Stops(s: string) { s == "" || !IsDigit(s[0]) }

  lemma {:induction false} ScanPrefix(acc: nat, a: string, b: string)
    requires forall c :: c in a ==> IsDigit(c)
    ensures ScanDigits(acc, a + b) == ScanDigits(ScanDigits(acc, a).0, b)
    decreases |a|
  {
    if a == "" {
      assert a + b == b;
    } else {
      assert (a + b)[1..] == a[1..] + b && a[0] in a;
      ScanPrefix(acc * 10 + (a[0] as nat - '0' as nat), a[1..], b);
    }
  }

  lemma {:induction false} ScanValue(n: nat)
    ensures ScanDigits(0, Digits(n)).0 == n
  {
    if n >= 10 {
      ScanValue(n / 10);
      ScanPrefix(0, Digits(n / 10), [Digit(n % 10)]);
      assert ScanDigits(n / 10, [Digit(n % 10)]) == ScanDigits(n, "");
    } else {
      assert ScanDigits(0, [Digit(n)]) == ScanDigits(n, "");
    }
  }

  lemma ItoaInverse(n: int, rest: string)
    requires Stops(rest)
    ensures ScanInt(Itoa(n) + rest) == Some((n, rest))
  {
    var d := Digits(if n < 0 then -n else n);
    ScanValue(if n < 0 then -n else n);
    ScanPrefix(0, d, rest);
    assert IsDigit(d[0]) && (d + rest)[0] == d[0];
    if n < 0 { assert ("-" + d + rest)[1..] == d + rest; }
  }

  /** The `-s` argument */
  function Screen(w: int, h: int, x: int, y: int): string {
    Itoa(w) + ("x" + (Itoa(h) + ("@" + (Itoa(x) + ("," + Itoa(y))))))
  }

  lemma DigitsAppend(n: nat, d: nat)
    requires n > 0 && d < 10
    ensures Digits(10 * n + d) == Digits(n) + [Digit(d)]
  {
  }

  lemma FourDigits(a: nat, b: nat, c: nat, d: nat)
    requires 0 < a < 10 && b < 10 && c < 10 && d < 10
    ensures Itoa(1000 * a + 100 * b + 10 * c + d) == [Digit(a), Digit(b), Digit(c), Digit(d)]
  {
    DigitsAppend(a, b);
    DigitsAppend(10 * a + b, c);
    DigitsAppend(100 * a + 10 * b + c, d);
  }

  /** Numbers are decimal, and stand in this order. */
  lemma ScreenExample()
    ensures Screen(1920, 1080, 5, -7) == "1920x1080@5,-7"
  {
    FourDigits(1, 9, 2, 0);
    FourDigits(1, 0, 8, 0);
    assert Itoa(5) == "5" && Itoa(-7) == "-7";
  }

  /** The size printed by the node is the size the sender reads, for every integer. */
  lemma SizeRoundTrip(w: int, h: int, x: int, y: int)
    ensures ParseSize(Screen(w, h, x, y)) == Some((w, h))
  {
    var tail := "@" + (Itoa(x) + ("," + Itoa(y)));
    ItoaInverse(w, "x" + (Itoa(h) + tail));
    ItoaInverse(h, tail);
    assert ("x" + (Itoa(h) + tail))[1..] == Itoa(h) + tail;
  }

  // ---- makeQtCmdParams and makeSenderCmdParams --------------------------------------

  datatype QtEnv = QtEnv(surface: int, layer: Option<int>)
  datatype Target = Target(ip: string, port: int)
  datatype Sender = Sender(command: string, qt: Option<QtEnv>, w: int, h: int, x: int, y: int,
                           receivers: seq<Target>, appName: string, appli: string)

  function QtWords(qt: Option<QtEnv>): seq<string> {
    match qt
    case None => []
    case Some(q) => ["-S", Itoa(q.surface)] + (if q.layer.Some? then ["-L", Itoa(q.layer.value)] else [])
  }

  function TargetPair(t: Target): seq<string> { ["-n", t.ip + ":" + Itoa(t.port)] }

  function TargetWords(receivers: seq<Target>): seq<string> {
    if receivers == [] then [] else TargetPair(receivers[0]) + TargetWords(receivers[1..])
  }

  /** The words meant to come before the application's own. */
  function Words(s: Sender): seq<string> {
    [s.command] + QtWords(s.qt) + ["-s", Screen(s.w, s.h, s.x, s.y)] + TargetWords(s.receivers)
    + ["--appli_name", s.appName]
  }

  /** Each word after a space. */
  function Suffix(words: seq<string>): string {
    if words == [] then "" else " " + words[0] + Suffix(words[1..])
  }

  lemma {:induction false} SuffixConcat(a: seq<string>, b: seq<string>)
    ensures Suffix(a + b) == Suffix(a) + Suffix(b)
  {
    if a == [] {
      assert a + b == b;
    } else {
      assert (a + b)[1..] == a[1..] + b;
      SuffixConcat(a[1..], b);
    }
  }

  lemma {:induction false} SuffixLine(word: string, words: seq<string>, tail: string)
    ensures word + Suffix(words) + " " + tail == Line([word] + words, tail)
    decreases |words|
  {
    assert ([word] + words)[1..] == words;
    if words == [] {
      assert Line(words, tail) == tail;
      assert word + Suffix(words) == word;
      assert word + " " + tail == word + (" " + tail);
    } else {
      SuffixLine(words[0], words[1..], tail);
      assert [words[0]] + words[1..] == words;
      assert word + (" " + words[0] + Suffix(words[1..])) + " " + tail
          == word + (" " + (words[0] + Suffix(words[1..]) + " " + tail));
    }
  }

  lemma SuffixPair(flag: string, arg: string)
    ensures Suffix([flag, arg]) == " " + flag + " " + arg
  {
    assert [flag, arg][1..] == [arg] && [arg][1..] == [];
    assert Suffix([arg]) == " " + arg + "";
    assert " " + arg + "" == " " + arg;
    Associate(" " + flag, " ", arg);
  }

  /** Appending a flag and its argument to what has been printed. */
  lemma Append(param: string, words: seq<string>, flag: string, arg: string)
    ensures param + Suffix(words + [flag, arg]) == param + Suffix(words) + (" " + flag + " " + arg)
  {
    SuffixConcat(words, [flag, arg]);
    SuffixPair(flag, arg);
    Associate(param, Suffix(words), " " + flag + " " + arg);
  }

  lemma {:induction false} TargetWordsAppend(receivers: seq<Target>, i: nat)
    requires i < |receivers|
    ensures TargetWords(receivers[..i + 1]) ==
            TargetWords(receivers[..i]) + TargetPair(receivers[i])
    decreases i
  {
    if i > 0 {
      var rest := receivers[1..];
      assert receivers[..i + 1][1..] == rest[..i] && receivers[..i][1..] == rest[..i - 1];
      TargetWordsAppend(rest, i - 1);
      Associate(TargetPair(receivers[0]), TargetWords(rest[..i - 1]), TargetPair(receivers[i]));
    } else {
      assert receivers[..1][1..] == [];
    }
  }

  method MakeQtCmdParams(s: Sender, param: string) returns (makeParam: string)
    ensures makeParam == param + Suffix(QtWords(s.qt))
  {
    makeParam := param;
    assert param + Suffix([]) == param;
    if s.qt.Some? {
      makeParam := makeParam + " -S " + Itoa(s.qt.value.surface);
      Append(param, [], "-S", Itoa(s.qt.value.surface));
      assert [] + ["-S", Itoa(s.qt.value.surface)] == ["-S", Itoa(s.qt.value.surface)];
      assert " " + "-S" + " " == " -S ";
      Associate(param, " -S ", Itoa(s.qt.value.surface));
      if s.qt.value.layer.Some? {
        ghost var before := makeParam;
        makeParam := makeParam + " -L " + Itoa(s.qt.value.layer.value);
        Append(param, ["-S", Itoa(s.qt.value.surface)], "-L", Itoa(s.qt.value.layer.value));
        assert " " + "-L" + " " == " -L ";
        Associate(before, " -L ", Itoa(s.qt.value.layer.value));
      }
    }
  }

  lemma ScreenText(before: string, s: Sender)
    ensures before + " -s " + Itoa(s.w) + "x" + Itoa(s.h) + "@" + Itoa(s.x) + "," + Itoa(s.y)
         == before + (" " + "-s" + " " + Screen(s.w, s.h, s.x, s.y))
  {
    assert " " + "-s" + " " == " -s ";
    var w, h, x, y := Itoa(s.w), Itoa(s.h), Itoa(s.x), Itoa(s.y);
    assert before + " -s " + w + "x" + h + "@" + x + "," + y == before + (" -s " + (w + ("x" + (h + ("@" + (x + ("," + y)))))));
  }

  lemma TargetText(before: string, ip: string, port: string)
    ensures before + " -n " + ip + ":" + port == before + (" " + "-n" + " " + (ip + ":" + port))
  {
    assert " " + "-n" + " " == " -n ";
  }

  lemma NameText(before: string, name: string)
    ensures before + " --appli_name " + name == before + (" " + "--appli_name" + " " + name)
  {
    assert " " + "--appli_name" + " " == " --appli_name ";
  }

  function ScreenWords(s: Sender): seq<string> { ["-s", Screen(s.w, s.h, s.x, s.y)] }

  lemma ScreenAppended(param: string, s: Sender)
    ensures param + " -s " + Itoa(s.w) + "x" + Itoa(s.h) + "@" + Itoa(s.x) + "," + Itoa(s.y)
         == param + Suffix(ScreenWords(s) + TargetWords(s.receivers[..0]))
  {
    ScreenText(param, s);
    SuffixPair("-s", Screen(s.w, s.h, s.x, s.y));
    assert ScreenWords(s) + TargetWords(s.receivers[..0]) == ScreenWords(s);
  }

  lemma TargetAppended(param: string, s: Sender, i: nat)
    requires i < |s.receivers|
    ensures param + Suffix(ScreenWords(s) + TargetWords(s.receivers[..i]))
            + " -n " + s.receivers[i].ip + ":" + Itoa(s.receivers[i].port)
         == param + Suffix(ScreenWords(s) + TargetWords(s.receivers[..i + 1]))
  {
    var done := ScreenWords(s) + TargetWords(s.receivers[..i]);
    var t := s.receivers[i];
    TargetText(param + Suffix(done), t.ip, Itoa(t.port));
    Append(param, done, "-n", t.ip + ":" + Itoa(t.port));
    TargetWordsAppend(s.receivers, i);
    assert ScreenWords(s) + TargetWords(s.receivers[..i + 1]) == done + ["-n", t.ip + ":" + Itoa(t.port)];
  }

  function SenderWords(s: Sender): seq<string> {
    ScreenWords(s) + TargetWords(s.receivers) + ["--appli_name", s.appName]
  }

  method MakeSenderCmdParams(s: Sender, param: string) returns (makeParam: string)
    ensures makeParam == param + Suffix(SenderWords(s)) + " " + s.appli
  {
    makeParam := param + " -s " + Itoa(s.w) + "x" + Itoa(s.h) + "@" + Itoa(s.x) + "," + Itoa(s.y);
    ScreenAppended(param, s);
    var i := 0;
    while i < |s.receivers|
      invariant i <= |s.receivers|
      invariant makeParam == param + Suffix(ScreenWords(s) + TargetWords(s.receivers[..i]))
    {
      TargetAppended(param, s, i);
      makeParam := makeParam + " -n " + s.receivers[i].ip + ":" + Itoa(s.receivers[i].port);
      i := i + 1;
    }
    assert s.receivers[..i] == s.receivers;
    NameText(makeParam, s.appName);
    Append(param, ScreenWords(s) + TargetWords(s.receivers), "--appli_name", s.appName);
    makeParam := makeParam + " --appli_name " + s.appName;
    makeParam := makeParam + " " + s.appli;
  }

  lemma ExecText(command: string, q: seq<string>, r: seq<string>, appli: string)
    ensures command + (Suffix(q) + Suffix(r) + " " + appli) == Line([command] + (q + r), appli)
  {
    SuffixConcat(q, r);
    SuffixLine(command, q + r, appli);
    Associate(command, Suffix(q + r), " " + appli);
    Associate(command + Suffix(q + r), " ", appli);
    Associate(Suffix(q + r), " ", appli);
  }

  lemma WordsParts(s: Sender)
    ensures Words(s) == [s.command] + (QtWords(s.qt) + SenderWords(s))
  {
  }

  /** ExecComm of a sender, as handleConnection builds it. */
  method SenderExecComm(s: Sender) returns (execComm: string)
    ensures execComm == Line(Words(s), s.appli)
  {
    ghost var q, r := QtWords(s.qt), SenderWords(s);
    var makeParam := MakeQtCmdParams(s, "");
    assert makeParam == Suffix(q) by { assert "" + Suffix(q) == Suffix(q); }
    makeParam := MakeSenderCmdParams(s, makeParam);
    ExecText(s.command, q, r, s.appli);
    WordsParts(s);
    execComm := s.command + makeParam;
  }

  predicate SpaceFree(s: Sender) {
    && ' ' !in s.command && ' ' !in s.appName
    && forall t :: t in s.receivers ==> ' ' !in t.ip
  }

  /** Splitting the command line on spaces gives the command, its flags with their arguments,
      one `-n ip:port` per receiver in order, the name, then the application's own words:
      exactly when command, name and addresses hold no space. */
  lemma ArgumentVector(s: Sender)
    ensures Split(Line(Words(s), s.appli)) == Words(s) + Split(s.appli) <==> SpaceFree(s)
  {
    SplitLine(Words(s), s.appli);
    WordsSpaceFree(s);
  }

  lemma {:induction false} TargetWordsAt(receivers: seq<Target>)
    ensures |TargetWords(receivers)| == 2 * |receivers|
    ensures forall i :: 0 <= i < |receivers| ==>
              TargetWords(receivers)[2 * i] == "-n"
              && TargetWords(receivers)[2 * i + 1] == receivers[i].ip + ":" + Itoa(receivers[i].port)
  {
    if receivers != [] {
      var rest := TargetWords(receivers[1..]);
      TargetWordsAt(receivers[1..]);
      forall i | 0 <= i < |receivers|
        ensures TargetWords(receivers)[2 * i] == "-n"
        ensures TargetWords(receivers)[2 * i + 1] == receivers[i].ip + ":" + Itoa(receivers[i].port)
      {
        if i > 0 {
          assert TargetWords(receivers)[2 * i] == rest[2 * (i - 1)];
          assert TargetWords(receivers)[2 * i + 1] == rest[2 * (i - 1) + 1];
          assert receivers[i] == receivers[1..][i - 1];
        }
      }
    }
  }

  function QtCount(qt: Option<QtEnv>): nat {
    if qt.None? then 0 else if qt.value.layer.None? then 2 else 4
  }

  lemma QtWordsAt(qt: Option<QtEnv>)
    ensures var ws := QtWords(qt);
      && |ws| == QtCount(qt)
      && (qt.Some? ==> ws[0] == "-S" && ws[1] == Itoa(qt.value.surface))
      && (qt.Some? && qt.value.layer.Some? ==> ws[2] == "-L" && ws[3] == Itoa(qt.value.layer.value))
  {
  }

  lemma PartsAt(a: seq<string>, b: seq<string>, c: seq<string>, d: seq<string>, e: seq<string>)
    ensures var ws := a + b + c + d + e;
      && |ws| == |a| + |b| + |c| + |d| + |e|
      && ws[..|a|] == a && ws[|a|..|a| + |b|] == b && ws[|a| + |b|..|a| + |b| + |c|] == c
      && ws[|a| + |b| + |c|..|a| + |b| + |c| + |d|] == d && ws[|a| + |b| + |c| + |d|..] == e
  {
  }

  /** Where each part of the sender stands among the words: `-S` and `-L` before the surface and
      the layer, if there are any, then the screen, the receivers in order, and the name. */
  lemma WordsLayout(s: Sender)
    ensures var ws, q, n := Words(s), 1 + QtCount(s.qt), |s.receivers|;
      && |ws| == q + 2 + 2 * n + 2
      && ws[0] == s.command
      && (s.qt.Some? ==> ws[1] == "-S" && ws[2] == Itoa(s.qt.value.surface))
      && (s.qt.Some? && s.qt.value.layer.Some? ==> ws[3] == "-L" && ws[4] == Itoa(s.qt.value.layer.value))
      && ws[q] == "-s" && ws[q + 1] == Screen(s.w, s.h, s.x, s.y)
      && (forall i :: 0 <= i < n ==> ws[q + 2..q + 2 + 2 * n][2 * i] == "-n"
                                     && ws[q + 2..q + 2 + 2 * n][2 * i + 1] == s.receivers[i].ip + ":" + Itoa(s.receivers[i].port))
      && ws[q + 2 + 2 * n] == "--appli_name" && ws[q + 2 + 2 * n + 1] == s.appName
  {
    var screen, name := ["-s", Screen(s.w, s.h, s.x, s.y)], ["--appli_name", s.appName];
    QtWordsAt(s.qt);
    TargetWordsAt(s.receivers);
    PartsAt([s.command], QtWords(s.qt), screen, TargetWords(s.receivers), name);
    var ws, q, n := Words(s), 1 + QtCount(s.qt), |s.receivers|;
    assert ws[..1] == [s.command] && ws[1..q] == QtWords(s.qt);
    assert ws[q..q + 2] == screen && ws[q + 2 + 2 * n..] == name;
    assert ws[q] == ws[q..q + 2][0] && ws[q + 1] == ws[q..q + 2][1];
    assert ws[q + 2 + 2 * n] == ws[q + 2 + 2 * n..][0] && ws[q + 2 + 2 * n + 1] == ws[q + 2 + 2 * n..][1];
    if s.qt.Some? {
      assert ws[1] == ws[1..q][0] && ws[2] == ws[1..q][1];
      if s.qt.value.layer.Some? { assert ws[3] == ws[1..q][2] && ws[4] == ws[1..q][3]; }
    }
  }

  lemma ItoaSpaceFree(n: int)
    ensures ' ' !in Itoa(n)
  {
  }

  predicate NoSpaces(ws: seq<string>) { forall w :: w in ws ==> ' ' !in w }

  lemma NoSpacesConcat(a: seq<string>, b: seq<string>)
    ensures NoSpaces(a + b) <==> NoSpaces(a) && NoSpaces(b)
  {
    assert forall w :: w in a + b <==> w in a || w in b;
  }

  lemma NoSpacesParts(a: seq<string>, b: seq<string>, c: seq<string>, d: seq<string>, e: seq<string>)
    ensures NoSpaces(a + b + c + d + e) <==> NoSpaces(a) && NoSpaces(b) && NoSpaces(c) && NoSpaces(d) && NoSpaces(e)
  {
    NoSpacesConcat(a, b);
    NoSpacesConcat(a + b, c);
    NoSpacesConcat(a + b + c, d);
    NoSpacesConcat(a + b + c + d, e);
  }

  lemma NoSpacesIn(x: string, y: string)
    ensures NoSpaces([x, y]) <==> ' ' !in x && ' ' !in y
  {
    assert x in [x, y] && y in [x, y];
  }

  lemma QtSpaceFree(qt: Option<QtEnv>)
    ensures NoSpaces(QtWords(qt))
  {
    if qt.Some? {
      ItoaSpaceFree(qt.value.surface);
      if qt.value.layer.Some? { ItoaSpaceFree(qt.value.layer.value); }
    }
  }

  lemma {:induction false} TargetsSpaceFree(receivers: seq<Target>)
    ensures NoSpaces(TargetWords(receivers)) <==> forall t :: t in receivers ==> ' ' !in t.ip
  {
    if receivers != [] {
      var t := receivers[0];
      ItoaSpaceFree(t.port);
      assert ' ' in t.ip + ":" + Itoa(t.port) <==> ' ' in t.ip;
      TargetsSpaceFree(receivers[1..]);
      assert forall x :: x in receivers <==> x == t || x in receivers[1..];
      assert forall w :: w in TargetWords(receivers) <==>
        w == "-n" || w == t.ip + ":" + Itoa(t.port) || w in TargetWords(receivers[1..]);
    }
  }

  lemma ScreenSpaceFree(w: int, h: int, x: int, y: int)
    ensures ' ' !in Screen(w, h, x, y)
  {
    ItoaSpaceFree(w);
    ItoaSpaceFree(h);
    ItoaSpaceFree(x);
    ItoaSpaceFree(y);
  }

  lemma WordsSpaceFree(s: Sender)
    ensures NoSpaces(Words(s)) <==> SpaceFree(s)
  {
    QtSpaceFree(s.qt);
    TargetsSpaceFree(s.receivers);
    ScreenSpaceFree(s.w, s.h, s.x, s.y);
    NoSpacesParts([s.command], QtWords(s.qt), ["-s", Screen(s.w, s.h, s.x, s.y)], TargetWords(s.receivers),
                  ["--appli_name", s.appName]);
    NoSpacesIn("-s", Screen(s.w, s.h, s.x, s.y));
    NoSpacesIn("--appli_name", s.appName);
  }
}
