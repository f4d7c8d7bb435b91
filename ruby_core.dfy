/** The few Ruby core-library behaviours the LTFS reader relies on:
    `String#to_i`, `Array#join`, `inspect` (used by `join` for Hash
    elements) and `File.join`. */
module RubyCore {
  import opened XmlNode

  // ---------------------------------------------------------------------
  // String#to_i (base 10)
  // ---------------------------------------------------------------------

  /** The characters C's `isspace` accepts, which `to_i` skips. */
  predicate IsSpace(c: char) {
    c == ' ' || c == '\t' || c == '\n' || c == '\r' || c as int == 11 || c as int == 12
  }

  predicate IsDigit(c: char) {
    '0' <= c <= '9'
  }

  function SkipSpace(s: string): (t: string)
    ensures t != [] ==> !IsSpace(t[0])
  {
    if s != [] && IsSpace(s[0]) then SkipSpace(s[1..]) else s
  }

  /** The digits of the number `s` begins with: the maximal run of decimal
      digits in which a single underscore may stand between two digits (the
      underscores are dropped). */
  function DigitRun(s: string): (ds: string)
    ensures |ds| <= |s|
    ensures forall i :: 0 <= i < |ds| ==> IsDigit(ds[i])
    ensures ds == [] <==> (s == [] || !IsDigit(s[0]))
  {
    if s == [] || !IsDigit(s[0]) then []
    else if |s| >= 3 && s[1] == '_' && IsDigit(s[2]) then [s[0]] + DigitRun(s[2..])
    else [s[0]] + DigitRun(s[1..])
  }

  function DigitValue(c: char): nat
    requires IsDigit(c)
  {
    c as int - '0' as int
  }

  /** The number a string of decimal digits denotes. */
  function DigitsValue(ds: string): nat
    requires forall i :: 0 <= i < |ds| ==> IsDigit(ds[i])
  {
    if ds == [] then 0
    else DigitsValue(ds[..|ds| - 1]) * 10 + DigitValue(ds[|ds| - 1])
  }

  /** Ruby's `String#to_i`: leading white space, an optional sign, then the
      leading digit run; a string with no leading digits gives 0. */
  function ToI(s: string): int {
    var t := SkipSpace(s);
    if t != [] && t[0] == '-' then 0 - DigitsValue(DigitRun(t[1..]))
    else if t != [] && t[0] == '+' then DigitsValue(DigitRun(t[1..]))
    else DigitsValue(DigitRun(t))
  }

  /** `nil.to_i` is 0, `String#to_i` parses, and a Hash or an Array has no
      `to_i` at all. */
  function RawToI(r: Raw): (res: Result<int>)
    ensures res.Success? <==> (r.Nil? || r.Text?)
    ensures r.Nil? ==> res == Success(0)
    ensures r.Text? ==> res == Success(ToI(r.s))
  {
    match r
    case Nil => Success(0)
    case Text(s) => Success(ToI(s))
    case _ => Failure(NoMethodError)
  }

  /** Decimal digits of a natural number, most significant first: the
      reference against which `ToI` is checked. */
  function Digits(n: nat): (ds: string)
    ensures ds != [] && forall i :: 0 <= i < |ds| ==> IsDigit(ds[i])
  {
    var last := ['0' + ((n % 10) as char)];
    if n < 10 then last else Digits(n / 10) + last
  }

  /** Ruby's `Integer#to_s`. */
  function IntToS(n: int): string {
    if n < 0 then ['-'] + Digits(-n) else Digits(n)
  }

  lemma {:induction false} DigitsValueOfDigits(n: nat)
    ensures DigitsValue(Digits(n)) == n
  {
    var ds := Digits(n);
    assert ds[..|ds| - 1] == if n < 10 then [] else Digits(n / 10);
    if n >= 10 {
      DigitsValueOfDigits(n / 10);
    }
  }

  /** A digit string followed by anything that cannot extend it is read up
      to its end and no further. */
  lemma {:induction false} DigitRunStopsAtEnd(ds: string, tail: string)
    requires ds != [] && forall i :: 0 <= i < |ds| ==> IsDigit(ds[i])
    requires tail == [] || !IsDigit(tail[0])
    requires tail != [] && tail[0] == '_' ==> |tail| < 2 || !IsDigit(tail[1])
    ensures DigitRun(ds + tail) == ds
  {
    var s := ds + tail;
    if |ds| == 1 {
      assert s[1..] == tail;
      assert !(|s| >= 3 && s[1] == '_' && IsDigit(s[2]));
    } else {
      assert s[1..] == ds[1..] + tail;
      DigitRunStopsAtEnd(ds[1..], tail);
    }
  }

  /** `to_i` reads back what `Integer#to_s` writes, also when the number is
      followed by text that does not continue it. */
  lemma ToIReadsIntToS(n: int, tail: string)
    requires tail == [] || !IsDigit(tail[0])
    requires tail != [] && tail[0] == '_' ==> |tail| < 2 || !IsDigit(tail[1])
    ensures ToI(IntToS(n) + tail) == n
  {
    var m: nat := if n < 0 then -n else n;
    DigitsValueOfDigits(m);
    if n < 0 {
      ToIReadsNegative(Digits(m), tail);
      assert IntToS(n) + tail == ['-'] + (Digits(m) + tail);
    } else {
      ToIReadsDigits(Digits(m), tail);
    }
  }

  lemma ToIReadsDigits(ds: string, tail: string)
    requires ds != [] && forall i :: 0 <= i < |ds| ==> IsDigit(ds[i])
    requires tail == [] || !IsDigit(tail[0])
    requires tail != [] && tail[0] == '_' ==> |tail| < 2 || !IsDigit(tail[1])
    ensures ToI(ds + tail) == DigitsValue(ds)
  {
    DigitRunStopsAtEnd(ds, tail);
    ToIOfDigitStart(ds + tail);
  }

  lemma ToIReadsNegative(ds: string, tail: string)
    requires ds != [] && forall i :: 0 <= i < |ds| ==> IsDigit(ds[i])
    requires tail == [] || !IsDigit(tail[0])
    requires tail != [] && tail[0] == '_' ==> |tail| < 2 || !IsDigit(tail[1])
    ensures ToI(['-'] + (ds + tail)) == 0 - DigitsValue(ds)
  {
    DigitRunStopsAtEnd(ds, tail);
    ToIOfMinus(ds + tail);
  }

  /** A text starting with a digit is read from its first character. */
  lemma ToIOfDigitStart(s: string)
    requires s != [] && IsDigit(s[0])
    ensures ToI(s) == DigitsValue(DigitRun(s))
  {
    assert SkipSpace(s) == s;
  }

  /** A text starting with '-' is the negated digit run after it. */
  lemma ToIOfMinus(rest: string)
    ensures ToI(['-'] + rest) == 0 - DigitsValue(DigitRun(rest))
  {
    var s := ['-'] + rest;
    assert s[1..] == rest;
    assert SkipSpace(s) == s;
  }

  /** Leading white space never changes what `to_i` reads. */
  lemma ToISkipsSpace(ws: string, s: string)
    requires forall i :: 0 <= i < |ws| ==> IsSpace(ws[i])
    ensures ToI(ws + s) == ToI(s)
  {
    SkipSpaceSkipsPrefix(ws, s);
  }

  lemma {:induction false} SkipSpaceSkipsPrefix(ws: string, s: string)
    requires forall i :: 0 <= i < |ws| ==> IsSpace(ws[i])
    ensures SkipSpace(ws + s) == SkipSpace(s)
  {
    if ws != [] {
      var w := ws + s;
      assert w[0] == ws[0];
      assert w[1..] == ws[1..] + s;
      SkipSpaceSkipsPrefix(ws[1..], s);
    } else {
      assert ws + s == s;
    }
  }

  /** Text that starts with neither a digit nor a sign (the partition letters
      "a" and "b", for one) reads as 0. */
  lemma ToIOfNonNumeric(s: string)
    requires s != [] && !IsSpace(s[0]) && !IsDigit(s[0]) && s[0] != '+' && s[0] != '-'
    ensures ToI(s) == 0
  {
  }

  // ---------------------------------------------------------------------
  // Array#join and inspect
  // ---------------------------------------------------------------------

  /** The parts with `sep` between each two of them. */
  function Join(parts: seq<string>, sep: string): (s: string)
    ensures parts == [] ==> s == []
  {
    if |parts| == 0 then []
    else if |parts| == 1 then parts[0]
    else parts[0] + sep + Join(parts[1..], sep)
  }

  /** Splits at every `sep`, keeping empty fields: the exact inverse of
      joining with a one-character separator (unlike Ruby's `split`, which
      drops trailing empty fields). */
  function Split(s: string, sep: char): (parts: seq<string>)
    ensures |parts| >= 1
  {
    if s == [] then [[]]
    else
      var rest := Split(s[1..], sep);
      if s[0] == sep then [[]] + rest else [[s[0]] + rest[0]] + rest[1..]
  }

  lemma {:induction false} SplitWithoutSeparator(p: string, sep: char)
    requires sep !in p
    ensures Split(p, sep) == [p]
  {
    if p != [] {
      SplitWithoutSeparator(p[1..], sep);
      assert [p[0]] + p[1..] == p;
    }
  }

  lemma {:induction false} SplitAtFirstSeparator(p: string, sep: char, rest: string)
    requires sep !in p
    ensures Split(p + [sep] + rest, sep) == [p] + Split(rest, sep)
  {
    var s := p + [sep] + rest;
    if p == [] {
      assert s[1..] == rest;
    } else {
      assert s[1..] == p[1..] + [sep] + rest;
      SplitAtFirstSeparator(p[1..], sep, rest);
      assert [p[0]] + p[1..] == p;
    }
  }

  /** Joining with a one-character separator that occurs in no part can be
      undone by splitting at that separator. */
  lemma {:induction false} SplitJoin(parts: seq<string>, sep: char)
    requires |parts| >= 1
    requires forall i :: 0 <= i < |parts| ==> sep !in parts[i]
    ensures Split(Join(parts, [sep]), sep) == parts
  {
    if |parts| == 1 {
      SplitWithoutSeparator(parts[0], sep);
    } else {
      SplitJoin(parts[1..], sep);
      SplitAtFirstSeparator(parts[0], sep, Join(parts[1..], [sep]));
      assert [parts[0]] + parts[1..] == parts;
    }
  }

  /** Ruby's `inspect` as `Hash#to_s` uses it (the `{:key=>value}` layout). */
  function Inspect(r: Raw): string {
    match r
    case Nil => "nil"
    case Text(s) => "\"" + s + "\""
    case Arr(items) =>
      "[" + Join(seq(|items|, i requires 0 <= i < |items| => Inspect(items[i])), ", ") + "]"
    case Hash(es) =>
      "{" + Join(seq(|es|, i requires 0 <= i < |es| => ":" + es[i].0 + "=>" + Inspect(es[i].1)), ", ") + "}"
  }

  /** How `Array#join(sep)` renders one element: a String as itself, nil as
      the empty string, a nested Array joined with the same separator, and
      anything else through `to_s`. */
  function Display(r: Raw, sep: string): string {
    match r
    case Nil => []
    case Text(s) => s
    case Arr(items) => Join(seq(|items|, i requires 0 <= i < |items| => Display(items[i], sep)), sep)
    case Hash(_) => Inspect(r)
  }

  /** Ruby's `Array#join(sep)`. */
  function ArrayJoin(items: seq<Raw>, sep: string): string {
    Join(DisplayEach(items, sep), sep)
  }

  function DisplayEach(items: seq<Raw>, sep: string): (ds: seq<string>)
    ensures |ds| == |items|
    ensures forall i :: 0 <= i < |items| ==> ds[i] == Display(items[i], sep)
  {
    seq(|items|, i requires 0 <= i < |items| => Display(items[i], sep))
  }

  // ---------------------------------------------------------------------
  // File.join
  // ---------------------------------------------------------------------

  /** The strings `File.join` receives once nested Arrays are flattened; nil
      and Hash arguments make it raise TypeError. */
  function PathStrings(r: Raw): (res: Result<seq<string>>)
    decreases r, 1
  {
    match r
    case Text(s) => Success([s])
    case Arr(_) => PathStringsFrom(r, 0)
    case _ => Failure(TypeError)
  }

  function PathStringsFrom(r: Raw, k: nat): (res: Result<seq<string>>)
    requires r.Arr?
    decreases r, 0, |r.items| - k
  {
    if k >= |r.items| then Success([])
    else
      var head :- PathStrings(r.items[k]);
      var tail :- PathStringsFrom(r, k + 1);
      Success(head + tail)
  }

  /** Joins path pieces with "/", the root piece "/" contributing its
      separator only once. */
  function JoinPath(pieces: seq<string>): string {
    if pieces == [] then []
    else if pieces[0] == "/" then "/" + Join(pieces[1..], "/")
    else Join(pieces, "/")
  }

  /** Ruby's `File.join(parts)` for the reader's path stack. */
  function FileJoin(parts: seq<Raw>): Result<string> {
    var pieces :- PathStrings(Arr(parts));
    Success(JoinPath(pieces))
  }

  predicate AllText(parts: seq<Raw>) {
    forall i :: 0 <= i < |parts| ==> parts[i].Text?
  }

  function Texts(parts: seq<Raw>): (ss: seq<string>)
    requires AllText(parts)
    ensures |ss| == |parts|
    ensures forall i :: 0 <= i < |parts| ==> ss[i] == parts[i].s
  {
    seq(|parts|, i requires 0 <= i < |parts| => parts[i].s)
  }

  lemma {:induction false} PathStringsFromTexts(r: Raw, k: nat)
    requires r.Arr? && k <= |r.items| && AllText(r.items)
    ensures PathStringsFrom(r, k) == Success(Texts(r.items)[k..])
    decreases |r.items| - k
  {
    if k < |r.items| {
      PathStringsFromTexts(r, k + 1);
      assert r.items[k] == Text(r.items[k].s);
      assert PathStrings(r.items[k]) == Success([r.items[k].s]);
      assert Texts(r.items)[k..] == [r.items[k].s] + Texts(r.items)[k + 1..];
    } else {
      assert Texts(r.items)[k..] == [];
    }
  }

  /** A path stack holding the root "/" and then directory names, all plain
      strings, joins to "/" followed by the names separated by "/"; the root
      alone joins to "/". */
  lemma FileJoinOfNames(names: seq<Raw>)
    requires AllText(names)
    ensures FileJoin([Text("/")] + names) == Success("/" + Join(Texts(names), "/"))
  {
    var parts := [Text("/")] + names;
    PathStringsFromTexts(Arr(parts), 0);
    assert Texts(parts) == ["/"] + Texts(names);
  }

  /** Whatever follows the root "/" on the stack, a path that joins at all
      starts with "/". */
  lemma FileJoinRooted(rest: seq<Raw>)
    ensures FileJoin([Text("/")] + rest).Success? ==>
      FileJoin([Text("/")] + rest).value != [] && FileJoin([Text("/")] + rest).value[0] == '/'
  {
    var r := Arr([Text("/")] + rest);
    var p := PathStringsFrom(r, 0);
    if p.Success? {
      assert PathStrings(r.items[0]) == Success(["/"]);
      assert p.value[0] == "/";
    }
  }

  /** Two directory names under the root join to "/a/b". */
  lemma FileJoinTwoNames(a: string, b: string)
    ensures FileJoin([Text("/"), Text(a), Text(b)]) == Success("/" + a + "/" + b)
  {
    var names := [Text(a), Text(b)];
    FileJoinOfNames(names);
    assert [Text("/")] + names == [Text("/"), Text(a), Text(b)];
    assert Texts(names) == [a, b];
    assert [a, b][1..] == [b];
    assert Join([a, b], "/") == a + "/" + b;
    assert FileJoin([Text("/")] + names) == Success("/" + (a + "/" + b));
    assert "/" + (a + "/" + b) == "/" + a + "/" + b;
  }

  /** A nil or Hash piece directly on the stack makes `File.join` raise,
      wherever it sits. */
  lemma {:induction false} FileJoinFailsOnNil(parts: seq<Raw>, k: nat)
    requires k < |parts| && (parts[k].Nil? || parts[k].Hash?)
    ensures FileJoin(parts).Failure?
  {
    PathStringsFromFailsAt(Arr(parts), 0, k);
  }

  lemma {:induction false} PathStringsFromFailsAt(r: Raw, j: nat, k: nat)
    requires r.Arr? && j <= k < |r.items| && (r.items[k].Nil? || r.items[k].Hash?)
    ensures PathStringsFrom(r, j).Failure?
    decreases k - j
  {
    if j < k {
      PathStringsFromFailsAt(r, j + 1, k);
    }
  }
}
