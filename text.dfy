/**
 * Text primitives the application relies on: whitespace stripping (Python's
 * `str.strip` as used by Django form fields, JavaScript's `String.trim`),
 * `String.split` on one character, decimal rendering of ids, and Python's
 * `int()` applied to a request parameter.
 */
module Text {

  /** The two runtimes whose stripping the application relies on: Python's
      `str.strip()` on the server and JavaScript's `String.trim()` in the
      browser. Their whitespace sets differ. */
  datatype Runtime = Python | JavaScript

  /** The characters each runtime strips. Both strip tab, line feed,
      vertical tab, form feed, carriage return, space, no-break space, the
      Unicode space separators and the line and paragraph separators.
      Python (`str.isspace`) also strips the information separators
      U+001C..U+001F and next-line U+0085; JavaScript also strips the byte
      order mark U+FEFF. */
  predicate IsSpace(rt: Runtime, c: char) {
    || c == ' ' || ('\t' <= c <= '\r')
    || c == '\U{A0}' || c == '\U{1680}' || ('\U{2000}' <= c <= '\U{200A}')
    || c == '\U{2028}' || c == '\U{2029}' || c == '\U{202F}' || c == '\U{205F}' || c == '\U{3000}'
    || (rt == Python && (('\U{1C}' <= c <= '\U{1F}') || c == '\U{85}'))
    || (rt == JavaScript && c == '\U{FEFF}')
  }

  predicate IsDigit(c: char) {
    '0' <= c <= '9'
  }

  predicate StartsWith(s: string, prefix: string) {
    |prefix| <= |s| && s[..|prefix|] == prefix
  }

  predicate AllSpace(rt: Runtime, s: string) {
    forall i :: 0 <= i < |s| ==> IsSpace(rt, s[i])
  }

  // ---------------------------------------------------------------------
  // Stripping

  /** Drops leading whitespace: what remains is a suffix of `s` that does
      not start with whitespace. */
  function TrimLeft(rt: Runtime, s: string): (r: string)
    ensures |r| <= |s|
    ensures r == [] || !IsSpace(rt, r[0])
  {
    if s != [] && IsSpace(rt, s[0]) then TrimLeft(rt, s[1..]) else s
  }

  /** Drops trailing whitespace: what remains is a prefix of `s` that does
      not end with whitespace. */
  function TrimRight(rt: Runtime, s: string): (r: string)
    ensures |r| <= |s|
    ensures r == [] || !IsSpace(rt, r[|r| - 1])
  {
    if s != [] && IsSpace(rt, s[|s| - 1]) then TrimRight(rt, s[..|s| - 1]) else s
  }

  /** Drops whitespace at both ends. */
  function Trim(rt: Runtime, s: string): (r: string)
    ensures |r| <= |s|
  {
    TrimRight(rt, TrimLeft(rt, s))
  }

  /** `TrimLeft` keeps a suffix and drops only whitespace. */
  lemma {:induction false} TrimLeftDropsSpace(rt: Runtime, s: string)
    ensures TrimLeft(rt, s) == s[|s| - |TrimLeft(rt, s)|..]
    ensures AllSpace(rt, s[..|s| - |TrimLeft(rt, s)|])
  {
    if s != [] && IsSpace(rt, s[0]) {
      TrimLeftDropsSpace(rt, s[1..]);
      assert s[..|s| - |TrimLeft(rt, s)|] == [s[0]] + s[1..][..|s| - 1 - |TrimLeft(rt, s[1..])|];
    }
  }

  /** `TrimRight` keeps a prefix and drops only whitespace. */
  lemma {:induction false} TrimRightDropsSpace(rt: Runtime, s: string)
    ensures TrimRight(rt, s) == s[..|TrimRight(rt, s)|]
    ensures AllSpace(rt, s[|TrimRight(rt, s)|..])
  {
    if s != [] && IsSpace(rt, s[|s| - 1]) {
      TrimRightDropsSpace(rt, s[..|s| - 1]);
      assert s[|TrimRight(rt, s)|..] == s[..|s| - 1][|TrimRight(rt, s[..|s| - 1])|..] + [s[|s| - 1]];
    }
  }

  /** The stripped text is the slice of `s` between two runs of whitespace. */
  lemma TrimIsSlice(rt: Runtime, s: string)
    ensures exists k :: 0 <= k <= |s| - |Trim(rt, s)| && Trim(rt, s) == s[k..k + |Trim(rt, s)|]
                        && AllSpace(rt, s[..k]) && AllSpace(rt, s[k + |Trim(rt, s)|..])
  {
    var l := TrimLeft(rt, s);
    var r := TrimRight(rt, l);
    var k := |s| - |l|;
    TrimLeftDropsSpace(rt, s);
    TrimRightDropsSpace(rt, l);
    assert r == s[k..k + |r|] && s[k + |r|..] == l[|r|..];
  }

  /** Stripping removes everything exactly when the text is all whitespace. */
  lemma TrimEmptyIffAllSpace(rt: Runtime, s: string)
    ensures Trim(rt, s) == [] <==> AllSpace(rt, s)
  {
    TrimIsSlice(rt, s);
  }

  /** A stripped text neither starts nor ends with whitespace. */
  lemma TrimEnds(rt: Runtime, s: string)
    ensures Trim(rt, s) == [] || (!IsSpace(rt, Trim(rt, s)[0]) && !IsSpace(rt, Trim(rt, s)[|Trim(rt, s)| - 1]))
  {
    TrimRightDropsSpace(rt, TrimLeft(rt, s));
  }

  /** Stripping leaves alone a text that neither starts nor ends with
      whitespace. */
  lemma TrimUnspaced(rt: Runtime, s: string)
    requires s != [] && !IsSpace(rt, s[0]) && !IsSpace(rt, s[|s| - 1])
    ensures Trim(rt, s) == s
  {
  }

  /** Stripping an already stripped text changes nothing. */
  lemma TrimIdempotent(rt: Runtime, s: string)
    ensures Trim(rt, Trim(rt, s)) == Trim(rt, s)
  {
    var t := Trim(rt, s);
    TrimEnds(rt, s);
    if t != [] {
      assert TrimLeft(rt, t) == t;
      assert TrimRight(rt, t) == t;
    }
  }

  // ---------------------------------------------------------------------
  // Splitting on one character, as JavaScript's `String.split(c)` does

  /** Index of the first occurrence of `c` in `s`. */
  function IndexOf(s: string, c: char): (i: nat)
    requires c in s
    ensures i < |s| && s[i] == c && c !in s[..i]
  {
    if s[0] == c then 0 else 1 + IndexOf(s[1..], c)
  }

  /** The text before the first `c`, or all of `s` when there is none. */
  function TakeUntil(s: string, c: char): (r: string)
    ensures c !in r && StartsWith(s, r)
    ensures |r| < |s| ==> s[|r|] == c
  {
    if c in s then s[..IndexOf(s, c)] else s
  }

  /** Glues pieces back together with `sep` between consecutive pieces. */
  function Join(parts: seq<string>, sep: char): string
    requires |parts| >= 1
  {
    if |parts| == 1 then parts[0] else parts[0] + [sep] + Join(parts[1..], sep)
  }

  /** `s.split(sep)`: the maximal pieces free of `sep`, in order; an empty
      text gives one empty piece. Joining the pieces restores `s`. */
  function Split(s: string, sep: char): (parts: seq<string>)
    ensures |parts| >= 1
    ensures forall i :: 0 <= i < |parts| ==> sep !in parts[i]
    ensures Join(parts, sep) == s
    ensures parts[0] == TakeUntil(s, sep)
    decreases |s|
  {
    if sep !in s then [s]
    else
      var i := IndexOf(s, sep);
      var rest := Split(s[i + 1..], sep);
      assert s == s[..i] + [sep] + s[i + 1..];
      [s[..i]] + rest
  }

  /** The text before the first `c` of `head + [c] + rest`, when `head` holds
      no `c`, is `head`. */
  lemma TakeUntilPrefix(head: string, c: char, rest: string)
    requires c !in head
    ensures TakeUntil(head + [c] + rest, c) == head
  {
    var s := head + [c] + rest;
    assert s[|head|] == c;
    assert s[..|head|] == head;
    assert IndexOf(s, c) == |head|;
  }

  /** After a prefix free of `sep` and one `sep`, the second piece is what
      follows up to the next `sep`. */
  lemma {:induction false} SplitSecond(head: string, sep: char, rest: string)
    requires sep !in head
    ensures |Split(head + [sep] + rest, sep)| >= 2
    ensures Split(head + [sep] + rest, sep)[1] == TakeUntil(rest, sep)
  {
    var s := head + [sep] + rest;
    TakeUntilPrefix(head, sep, rest);
    assert IndexOf(s, sep) == |head|;
    assert s[|head| + 1..] == rest;
  }

  /** Index of the last occurrence of `c` in `s`, where Python's
      `rsplit(c, 1)` cuts. */
  function LastIndexOf(s: string, c: char): (i: nat)
    requires c in s
    ensures i < |s| && s[i] == c && c !in s[i + 1..]
  {
    if s[|s| - 1] == c then |s| - 1
    else
      assert c in s[..|s| - 1] by { var k :| 0 <= k < |s| && s[k] == c; assert s[..|s| - 1][k] == c; }
      var i := LastIndexOf(s[..|s| - 1], c);
      assert s[i + 1..] == s[..|s| - 1][i + 1..] + [s[|s| - 1]];
      i
  }

  /** Wherever `head + [c] + tail` is written with no `c` in `tail`, its
      last `c` sits right after `head`. */
  lemma LastIndexOfSplit(head: string, c: char, tail: string)
    requires c !in tail
    ensures LastIndexOf(head + [c] + tail, c) == |head|
  {
    var s := head + [c] + tail;
    var i := LastIndexOf(s, c);
    assert s[|head|] == c;
  }

  // ---------------------------------------------------------------------
  // Case

  /** `str.lower()` on one character, for the ASCII letters. */
  function LowerChar(c: char): char {
    if 'A' <= c <= 'Z' then (c as int + 32) as char else c
  }

  /** Lower-casing never turns a character into whitespace. */
  lemma LowerCharNotSpace(rt: Runtime, c: char)
    requires !IsSpace(rt, c)
    ensures !IsSpace(rt, LowerChar(c))
  {
  }

  function Lower(s: string): (r: string)
    ensures |r| == |s|
    ensures forall i :: 0 <= i < |s| ==> r[i] == LowerChar(s[i])
  {
    if s == [] then [] else [LowerChar(s[0])] + Lower(s[1..])
  }

  /** Lower-casing moves no character into or out of the text unless it is
      a letter. */
  lemma LowerKeeps(s: string, c: char)
    requires !('A' <= c <= 'Z') && !('a' <= c <= 'z')
    ensures c in Lower(s) <==> c in s
  {
    if c in Lower(s) {
      var i :| 0 <= i < |s| && Lower(s)[i] == c;
      assert s[i] == c;
    }
    if c in s {
      var i :| 0 <= i < |s| && s[i] == c;
      assert Lower(s)[i] == c;
    }
  }

  /** Lower-casing twice is lower-casing once. */
  lemma LowerIdempotent(s: string)
    ensures Lower(Lower(s)) == Lower(s)
  {
  }

  // ---------------------------------------------------------------------
  // Decimal numbers

  function DigitChar(d: nat): (c: char)
    requires d < 10
    ensures IsDigit(c)
  {
    ['0', '1', '2', '3', '4', '5', '6', '7', '8', '9'][d]
  }

  function DigitValue(c: char): (d: nat)
    requires IsDigit(c)
    ensures d < 10
  {
    (c as int - '0' as int) as nat
  }

  lemma DigitRoundTrip(d: nat)
    requires d < 10
    ensures DigitValue(DigitChar(d)) == d
  {
  }

  predicate AllDigits(s: string) {
    forall i :: 0 <= i < |s| ==> IsDigit(s[i])
  }

  /** Decimal rendering of a natural number, as Python's `str(int)` and
      JavaScript's number-to-string produce it. */
  function NatToString(n: nat): (s: string)
    ensures |s| >= 1 && AllDigits(s)
    ensures |s| > 1 ==> s[0] != '0'
  {
    if n < 10 then [DigitChar(n)] else NatToString(n / 10) + [DigitChar(n % 10)]
  }

  /** The value of a string of decimal digits, most significant first. */
  function DigitsValue(s: string): nat
    requires AllDigits(s)
  {
    if s == [] then 0 else DigitsValue(s[..|s| - 1]) * 10 + DigitValue(s[|s| - 1])
  }

  /** Rendering a number and reading it back gives the number. */
  lemma {:induction false} DigitsValueOfNatToString(n: nat)
    ensures DigitsValue(NatToString(n)) == n
  {
    var s := NatToString(n);
    if n >= 10 {
      DigitsValueOfNatToString(n / 10);
      assert s[..|s| - 1] == NatToString(n / 10);
    }
    DigitRoundTrip(n % 10);
  }

  /** Distinct numbers render as distinct strings. */
  lemma NatToStringInjective(m: nat, n: nat)
    requires NatToString(m) == NatToString(n)
    ensures m == n
  {
    DigitsValueOfNatToString(m);
    DigitsValueOfNatToString(n);
  }

  // ---------------------------------------------------------------------
  // Python's int() on a request parameter (base 10, ASCII digits)

  /** A digit run as Python's integer literal syntax allows it: digits,
      single underscores only between two digits. */
  predicate IsDigitGroup(b: string) {
    && |b| >= 1
    && IsDigit(b[0]) && IsDigit(b[|b| - 1])
    && (forall i :: 0 <= i < |b| ==> IsDigit(b[i]) || b[i] == '_')
    && (forall i :: 0 <= i < |b| - 1 ==> b[i] == '_' ==> b[i + 1] != '_')
  }

  function DropUnderscores(b: string): (r: string)
    requires forall i :: 0 <= i < |b| ==> IsDigit(b[i]) || b[i] == '_'
    ensures AllDigits(r) && |r| <= |b|
  {
    if b == [] then []
    else (if b[0] == '_' then [] else [b[0]]) + DropUnderscores(b[1..])
  }

  lemma {:induction false} DropUnderscoresOfDigits(b: string)
    requires AllDigits(b)
    ensures DropUnderscores(b) == b
  {
    if b != [] {
      DropUnderscoresOfDigits(b[1..]);
    }
  }

  /** The value of a digit group, underscores ignored. */
  function GroupValue(b: string): nat
    requires IsDigitGroup(b)
  {
    DigitsValue(DropUnderscores(b))
  }

  /** A stripped, nonempty text read as an optionally signed digit group. */
  function SignedValue(t: string): Option<int>
    requires t != []
  {
    if t[0] == '-' then
      (if IsDigitGroup(t[1..]) then var v: int := GroupValue(t[1..]); Some(-v) else None)
    else if t[0] == '+' then
      (if IsDigitGroup(t[1..]) then Some(GroupValue(t[1..])) else None)
    else if IsDigitGroup(t) then Some(GroupValue(t))
    else None
  }

  /** `int(s)`: surrounding whitespace is stripped, one optional sign is
      allowed, then a digit group; anything else is a `ValueError` (None). */
  function PyInt(s: string): (r: Option<int>)
    ensures r.Some? ==> Trim(Python, s) != []
  {
    var t := Trim(Python, s);
    if t == [] then None else SignedValue(t)
  }

  /** A nonempty digit string has nothing to strip. */
  lemma TrimOfDigits(rt: Runtime, s: string)
    requires s != [] && AllDigits(s)
    ensures Trim(rt, s) == s
  {
    assert TrimLeft(rt, s) == s;
    assert TrimRight(rt, s) == s;
  }

  /** A plain run of digits is read as its decimal value. */
  lemma PyIntOfDigits(s: string)
    requires s != [] && AllDigits(s)
    ensures PyInt(s) == Some(DigitsValue(s) as int)
  {
    TrimOfDigits(Python, s);
    assert PyInt(s) == SignedValue(s);
    assert IsDigit(s[0]);
    assert IsDigitGroup(s);
    assert SignedValue(s) == Some(GroupValue(s));
    DropUnderscoresOfDigits(s);
  }

  /** Reading back the decimal rendering of an id gives that id, so a client
      that sends `String(id)` has it parsed to the same id. */
  lemma PyIntOfNatToString(n: nat)
    ensures PyInt(NatToString(n)) == Some(n)
  {
    PyIntOfDigits(NatToString(n));
    DigitsValueOfNatToString(n);
  }

  datatype Option<+T> = None | Some(value: T)
}
