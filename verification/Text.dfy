/** The string operations the schedule parser is built from: splitting on white space,
splitting and cutting at a separator, and reading a decimal 64-bit integer. */
module Text {

  datatype Option<+T> = None | Some(value: T)

  const MIN_INT64 := -0x8000_0000_0000_0000
  const MAX_INT64 := 0x7FFF_FFFF_FFFF_FFFF

  /** The 64-bit sum or difference of two 64-bit values, with wrap-around. */
  function Wrap64(x: int): int {
    if x > MAX_INT64 then x - 0x1_0000_0000_0000_0000
    else if x < MIN_INT64 then x + 0x1_0000_0000_0000_0000
    else x
  }

  /** Unicode white space. */
  predicate IsSpace(c: char) {
    || '\t' <= c <= '\r' || c == ' '
    || c == '\U{0085}' || c == '\U{00A0}' || c == '\U{1680}'
    || '\U{2000}' <= c <= '\U{200A}'
    || c == '\U{2028}' || c == '\U{2029}' || c == '\U{202F}' || c == '\U{205F}' || c == '\U{3000}'
  }

  /** The length of the longest prefix without white space. */
  function TokenLength(s: string): (n: nat)
    ensures n <= |s| && (n < |s| ==> IsSpace(s[n]))
    ensures forall i :: 0 <= i < n ==> !IsSpace(s[i])
  {
    if s == "" || IsSpace(s[0]) then 0 else 1 + TokenLength(s[1..])
  }

  /** The maximal runs of non-space characters, in order. */
  function Fields(s: string): seq<string> {
    if s == "" then []
    else if IsSpace(s[0]) then Fields(s[1..])
    else
      var n := TokenLength(s);
      assert n > 0;
      [s[..n]] + Fields(s[n..])
  }

  /** The first index of c, or the length of s when c does not occur. */
  function IndexOf(s: string, c: char): (i: nat)
    ensures i <= |s| && (i < |s| ==> s[i] == c)
    ensures forall j :: 0 <= j < i ==> s[j] != c
  {
    if s == "" || s[0] == c then 0 else 1 + IndexOf(s[1..], c)
  }

  function Split(s: string, c: char): (parts: seq<string>)
    ensures parts != []
  {
    var i := IndexOf(s, c);
    if i == |s| then [s] else [s[..i]] + Split(s[i + 1..], c)
  }

  predicate IsDigit(c: char) {
    '0' <= c <= '9'
  }

  predicate AllDigits(s: string) {
    s != "" && forall i :: 0 <= i < |s| ==> IsDigit(s[i])
  }

  function DigitsValue(s: string): nat
    requires forall i :: 0 <= i < |s| ==> IsDigit(s[i])
  {
    if s == "" then 0
    else
      assert IsDigit(s[|s| - 1]);
      DigitsValue(s[..|s| - 1]) * 10 + (s[|s| - 1] as int - '0' as int)
  }

  /** An optionally signed decimal that fits 64 bits; anything else is refused. */
  function Atoi(s: string): Option<int> {
    var signed := s != "" && (s[0] == '-' || s[0] == '+');
    var digits := if signed then s[1..] else s;
    if !AllDigits(digits) then None
    else
      var n: int := DigitsValue(digits);
      var v: int := if signed && s[0] == '-' then -n else n;
      if MIN_INT64 <= v <= MAX_INT64 then Some(v) else None
  }

  /** The decimal spelling of a natural number. */
  function Itoa(n: nat): (s: string)
    ensures AllDigits(s)
  {
    var last := [('0' as int + n % 10) as char];
    if n < 10 then last else Itoa(n / 10) + last
  }

  function Join(parts: seq<string>, sep: string): string {
    if parts == [] then ""
    else if |parts| == 1 then parts[0]
    else parts[0] + sep + Join(parts[1..], sep)
  }

  lemma {:induction false} DigitsOfItoa(n: nat)
    ensures DigitsValue(Itoa(n)) == n
  {
    var s := Itoa(n);
    if n >= 10 {
      DigitsOfItoa(n / 10);
      assert s[..|s| - 1] == Itoa(n / 10);
    } else {
      assert s[..|s| - 1] == "";
    }
  }

  /** Reading back a printed number gives the number, whenever it fits. */
  lemma AtoiItoa(n: nat)
    requires n <= MAX_INT64
    ensures Atoi(Itoa(n)) == Some(n)
  {
    assert IsDigit(Itoa(n)[0]);
    DigitsOfItoa(n);
  }

  lemma {:induction false} IndexOfFirst(s: string, c: char, i: nat)
    requires i <= |s| && (forall j :: 0 <= j < i ==> s[j] != c) && (i < |s| ==> s[i] == c)
    ensures IndexOf(s, c) == i
  {
  }

  /** Splitting undoes joining when no part holds the separator. */
  lemma {:induction false} SplitJoin(parts: seq<string>, c: char)
    requires parts != [] && forall p :: p in parts ==> c !in p
    ensures Split(Join(parts, [c]), c) == parts
  {
    var p := parts[0];
    assert p in parts;
    if |parts| == 1 {
      IndexOfFirst(p, c, |p|);
    } else {
      var rest := Join(parts[1..], [c]);
      var s := p + [c] + rest;
      SplitJoin(parts[1..], c);
      IndexOfFirst(s, c, |p|);
      assert s[..|p|] == p && s[|p| + 1..] == rest;
    }
  }

  predicate IsToken(s: string) {
    s != "" && forall i :: 0 <= i < |s| ==> !IsSpace(s[i])
  }

  lemma {:induction false} TokenLengthIs(s: string, n: nat)
    requires n <= |s| && (forall i :: 0 <= i < n ==> !IsSpace(s[i])) && (n < |s| ==> IsSpace(s[n]))
    ensures TokenLength(s) == n
  {
  }

  /** White-space splitting undoes joining non-blank tokens with single spaces. */
  lemma {:induction false} FieldsJoin(parts: seq<string>)
    requires forall p :: p in parts ==> IsToken(p)
    ensures Fields(Join(parts, " ")) == parts
  {
    if parts != [] {
      var p := parts[0];
      assert p in parts;
      if |parts| == 1 {
        TokenLengthIs(p, |p|);
        assert p[..|p|] == p && p[|p|..] == "";
      } else {
        var rest := Join(parts[1..], " ");
        var s := p + " " + rest;
        FieldsJoin(parts[1..]);
        TokenLengthIs(s, |p|);
        assert s[..|p|] == p && s[|p|..] == " " + rest;
        assert (" " + rest)[1..] == rest;
      }
    }
  }

  lemma FieldsCut(s: string, n: nat)
    requires s != "" && !IsSpace(s[0]) && n == TokenLength(s)
    ensures n > 0 && Fields(s) == [s[..n]] + Fields(s[n..])
  {
  }

  lemma TailAt(a: string, c: char, b: string, s: string, n: nat)
    requires s == a + [c] + b && n <= |a|
    ensures s[..n] == a[..n] && s[n..] == a[n..] + [c] + b
  {
  }

  lemma ConsAppend(p: string, f: seq<string>, g: seq<string>)
    ensures [p] + (f + g) == ([p] + f) + g
  {
  }

  /** A space anywhere separates the fields before it from those after it. */
  lemma {:induction false} FieldsAtSpace(a: string, c: char, b: string, s: string)
    requires IsSpace(c) && s == a + [c] + b
    ensures Fields(s) == Fields(a) + Fields(b)
    decreases |a|
  {
    if a == "" {
      assert s[1..] == b;
    } else if IsSpace(a[0]) {
      TailAt(a, c, b, s, 1);
      FieldsAtSpace(a[1..], c, b, s[1..]);
    } else {
      var n := TokenLength(a);
      TokenLengthIs(s, n);
      TailAt(a, c, b, s, n);
      FieldsCut(a, n);
      FieldsCut(s, n);
      FieldsAtSpace(a[n..], c, b, s[n..]);
      ConsAppend(a[..n], Fields(a[n..]), Fields(b));
    }
  }

  /** Text without a space is one field, and no text is none. */
  lemma FieldsOfToken(s: string)
    requires forall i :: 0 <= i < |s| ==> !IsSpace(s[i])
    ensures Fields(s) == if s == "" then [] else [s]
  {
    TokenLengthIs(s, |s|);
    assert s[..|s|] == s && s[|s|..] == "";
  }

  lemma SplitCut(s: string, c: char, i: nat)
    requires i == IndexOf(s, c) < |s|
    ensures Split(s, c) == [s[..i]] + Split(s[i + 1..], c)
  {
  }

  /** A separator anywhere cuts the parts before it from those after it, empty ones included. */
  lemma {:induction false} SplitAtSeparator(a: string, c: char, b: string, s: string)
    requires s == a + [c] + b
    ensures Split(s, c) == Split(a, c) + Split(b, c)
    decreases |a|
  {
    var i := IndexOf(a, c);
    IndexOfFirst(s, c, i);
    SplitCut(s, c, i);
    if i == |a| {
      assert s[..i] == a && s[i + 1..] == b;
    } else {
      SplitCut(a, c, i);
      TailAt(a, c, b, s, i);
      TailAt(a, c, b, s, i + 1);
      SplitAtSeparator(a[i + 1..], c, b, s[i + 1..]);
      ConsAppend(a[..i], Split(a[i + 1..], c), Split(b, c));
    }
  }

  /** What a sign does to a number. */
  lemma AtoiSigned(n: nat)
    requires n <= MAX_INT64
    ensures Atoi("+" + Itoa(n)) == Some(n) && Atoi("-" + Itoa(n)) == Some(0 - n)
  {
    DigitsOfItoa(n);
    assert ("+" + Itoa(n))[1..] == Itoa(n) && ("-" + Itoa(n))[1..] == Itoa(n);
  }

  /** Each further digit counts ten times the digits before it. */
  lemma AtoiDigits(s: string, c: char)
    requires AllDigits(s) && IsDigit(c) && Atoi(s).Some? && 10 * Atoi(s).value + 9 <= MAX_INT64
    ensures Atoi(s + [c]) == Some(10 * Atoi(s).value + (c as int - '0' as int))
  {
    var t := s + [c];
    assert t[..|t| - 1] == s;
    assert IsDigit(s[0]) && IsDigit(t[0]);
    assert forall i :: 0 <= i < |t| ==> IsDigit(t[i]);
  }

  /** One digit is its own value. */
  lemma AtoiDigit(s: string)
    requires |s| == 1 && '0' <= s[0] <= '9'
    ensures Atoi(s) == Some(s[0] as int - 48)
  {
    assert IsDigit(s[0]) && s[..|s| - 1] == "";
    assert DigitsValue(s[..|s| - 1]) == 0;
    assert DigitsValue(s) == s[0] as int - '0' as int;
  }

  /** Text that holds anything but digits after an optional sign is no number. */
  lemma NoNumber(s: string, i: nat)
    requires i < |s| && !IsDigit(s[i]) && (i == 0 ==> s[0] != '-' && s[0] != '+')
    ensures Atoi(s) == None
  {
    if s[0] == '-' || s[0] == '+' {
      assert s[1..][i - 1] == s[i];
    }
  }

  lemma NoNumberAtAll()
    ensures Atoi("") == Atoi("-") == Atoi("+") == None
  {
  }

  /** A number past 64 bits is refused. */
  lemma AtoiTooBig(n: nat)
    requires n > MAX_INT64
    ensures Atoi(Itoa(n)) == None
  {
    assert IsDigit(Itoa(n)[0]);
    DigitsOfItoa(n);
  }

  /** White space as Unicode has it, and none of the characters a schedule is written with. */
  lemma SpaceSamples(c: char)
    ensures c in [' ', '\t', '\n', '\r', '\U{00A0}', '\U{3000}'] ==> IsSpace(c)
    ensures IsDigit(c) || c in ['*', ',', '-', '/'] || 'A' <= c <= 'Z' || 'a' <= c <= 'z' ==> !IsSpace(c)
  {
  }
}
