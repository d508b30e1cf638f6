/** What everything else needs: options, and strings as the program orders, sorts, trims and parses them. */
module Text {

  datatype Option<+T> = None | Some(value: T)

  /** The values of a Go int32. */
  type int32 = x: int | -0x8000_0000 <= x < 0x8000_0000

  function Min(a: int, b: int): int { if a <= b then a else b }

  // ---------------------------------------------------------------- order

  /** The order `strings.Compare` gives: character by character, a prefix first. */
  predicate Leq(a: string, b: string) {
    |a| == 0 || (|b| > 0 && (a[0] < b[0] || (a[0] == b[0] && Leq(a[1..], b[1..]))))
  }

  lemma {:induction false} LeqIsTotal(a: string, b: string)
    ensures Leq(a, b) || Leq(b, a)
  {
    if |a| > 0 && |b| > 0 && a[0] == b[0] { LeqIsTotal(a[1..], b[1..]); }
  }

  lemma {:induction false} LeqIsAntisymmetric(a: string, b: string)
    requires Leq(a, b) && Leq(b, a)
    ensures a == b
  {
    if |a| > 0 {
      LeqIsAntisymmetric(a[1..], b[1..]);
      assert a == [a[0]] + a[1..] && b == [b[0]] + b[1..];
    }
  }

  lemma {:induction false} LeqIsTransitive(a: string, b: string, c: string)
    requires Leq(a, b) && Leq(b, c)
    ensures Leq(a, c)
  {
    if |a| > 0 && a[0] == b[0] == c[0] { LeqIsTransitive(a[1..], b[1..], c[1..]); }
  }

  // -------------------------------------------------------------- sorting

  ghost predicate SortedBy<T(!new)>(s: seq<T>, key: T -> string) {
    forall i, j | 0 <= i < j < |s| :: Leq(key(s[i]), key(s[j]))
  }

  /** Two members of `s` with the same key are the same member. */
  ghost predicate KeyIdentifies<T(!new)>(s: seq<T>, key: T -> string) {
    forall x, y | x in s && y in s && key(x) == key(y) :: x == y
  }

  function InsertBy<T(!new)>(x: T, s: seq<T>, key: T -> string): (r: seq<T>)
    ensures multiset(r) == multiset(s) + multiset{x}
  {
    if |s| == 0 || Leq(key(x), key(s[0])) then [x] + s
    else
      assert s == [s[0]] + s[1..];
      [s[0]] + InsertBy(x, s[1..], key)
  }

  lemma SortedFront<T(!new)>(x: T, s: seq<T>, key: T -> string)
    requires SortedBy(s, key) && forall y | y in s :: Leq(key(x), key(y))
    ensures SortedBy([x] + s, key)
  {
  }

  lemma {:induction false} InsertByKeepsSorted<T(!new)>(x: T, s: seq<T>, key: T -> string)
    requires SortedBy(s, key)
    ensures SortedBy(InsertBy(x, s, key), key)
  {
    if |s| > 0 {
      if Leq(key(x), key(s[0])) {
        LeqBelowAll(x, s, key);
        SortedFront(x, s, key);
      } else {
        LeqIsTotal(key(x), key(s[0]));
        var rest := InsertBy(x, s[1..], key);
        InsertByKeepsSorted(x, s[1..], key);
        forall y | y in rest ensures Leq(key(s[0]), key(y)) {
          assert y in multiset(rest);
          assert y == x || y in s[1..];
        }
        SortedFront(s[0], rest, key);
      }
    }
  }

  lemma LeqBelowAll<T(!new)>(x: T, s: seq<T>, key: T -> string)
    requires SortedBy(s, key) && |s| > 0 && Leq(key(x), key(s[0]))
    ensures forall y | y in s :: Leq(key(x), key(y))
  {
    forall y | y in s ensures Leq(key(x), key(y)) {
      var i :| 0 <= i < |s| && s[i] == y;
      if i > 0 { LeqIsTransitive(key(x), key(s[0]), key(y)); }
    }
  }

  /** What `slices.SortFunc` returns when keys identify members: see SortedIsUnique. */
  function SortBy<T(!new)>(s: seq<T>, key: T -> string): (r: seq<T>)
    ensures SortedBy(r, key) && multiset(r) == multiset(s)
  {
    if |s| == 0 then [] else
    assert s == [s[0]] + s[1..];
    InsertByKeepsSorted(s[0], SortBy(s[1..], key), key);
    InsertBy(s[0], SortBy(s[1..], key), key)
  }

  function Itself(s: string): string { s }

  /** `slices.Sort` on strings. */
  function Sorted(s: seq<string>): (r: seq<string>)
    ensures SortedBy(r, Itself) && multiset(r) == multiset(s)
  {
    SortBy(s, Itself)
  }

  lemma SameMembers<T>(a: seq<T>, b: seq<T>)
    requires multiset(a) == multiset(b)
    ensures |a| == |b| && forall x :: x in a <==> x in b
  {
    assert |multiset(a)| == |a| && |multiset(b)| == |b|;
    forall x ensures x in a <==> x in b {
      assert x in a <==> x in multiset(a);
      assert x in b <==> x in multiset(b);
    }
  }

  lemma FirstIsLeast<T(!new)>(s: seq<T>, x: T, key: T -> string)
    requires SortedBy(s, key) && x in s
    ensures Leq(key(s[0]), key(x))
  {
    LeqIsTotal(key(x), key(x));
    var i :| 0 <= i < |s| && s[i] == x;
  }

  lemma TailsAgree<T>(a: seq<T>, b: seq<T>)
    requires |a| > 0 && |b| > 0 && a[0] == b[0] && multiset(a) == multiset(b)
    ensures multiset(a[1..]) == multiset(b[1..])
  {
    assert a == [a[0]] + a[1..] && b == [b[0]] + b[1..];
    calc {
      multiset(a[1..]);
      multiset(a) - multiset{a[0]};
      multiset(b) - multiset{b[0]};
      multiset(b[1..]);
    }
  }

  /** Whatever sorting algorithm is used, there is one sorted arrangement. */
  lemma {:induction false} SortedIsUnique<T(!new)>(a: seq<T>, b: seq<T>, key: T -> string)
    requires SortedBy(a, key) && SortedBy(b, key) && multiset(a) == multiset(b)
    requires KeyIdentifies(a, key)
    ensures a == b
  {
    SameMembers(a, b);
    if |a| > 0 {
      FirstIsLeast(a, b[0], key);
      FirstIsLeast(b, a[0], key);
      LeqIsAntisymmetric(key(a[0]), key(b[0]));
      TailsAgree(a, b);
      SortedIsUnique(a[1..], b[1..], key);
      assert a == [a[0]] + a[1..] && b == [b[0]] + b[1..];
    }
  }

  lemma SortForgetsOrder<T(!new)>(a: seq<T>, b: seq<T>, key: T -> string)
    requires multiset(a) == multiset(b) && KeyIdentifies(a, key)
    ensures SortBy(a, key) == SortBy(b, key)
  {
    SameMembers(a, SortBy(a, key));
    SortedIsUnique(SortBy(a, key), SortBy(b, key), key);
  }

  // ------------------------------------------------------------- trimming

  /** unicode.IsSpace. */
  predicate IsSpace(c: char) {
    c in "\t\n\U{000B}\U{000C}\r \U{0085}\U{00A0}\U{1680}\U{2028}\U{2029}\U{202F}\U{205F}\U{3000}"
    || '\U{2000}' <= c <= '\U{200A}'
  }

  function TrimLeft(s: string): string {
    if |s| > 0 && IsSpace(s[0]) then TrimLeft(s[1..]) else s
  }

  function TrimRight(s: string): string {
    if |s| > 0 && IsSpace(s[|s| - 1]) then TrimRight(s[..|s| - 1]) else s
  }

  /** strings.TrimSpace. */
  function TrimSpace(s: string): string { TrimRight(TrimLeft(s)) }

  predicate Trimmed(s: string) {
    |s| > 0 ==> !IsSpace(s[0]) && !IsSpace(s[|s| - 1])
  }

  lemma {:induction false} TrimRightKeepsFront(s: string)
    ensures var r := TrimRight(s);
      |r| <= |s| && r == s[..|r|] && (|r| > 0 ==> !IsSpace(r[|r| - 1]))
      && (|s| > 0 && !IsSpace(s[0]) ==> |r| > 0)
  {
    if |s| > 0 && IsSpace(s[|s| - 1]) { TrimRightKeepsFront(s[..|s| - 1]); }
  }

  lemma {:induction false} TrimLeftFront(s: string)
    ensures var r := TrimLeft(s); |r| > 0 ==> !IsSpace(r[0])
  {
    if |s| > 0 && IsSpace(s[0]) { TrimLeftFront(s[1..]); }
  }

  lemma TrimSpaceTrims(s: string)
    ensures Trimmed(TrimSpace(s))
    ensures Trimmed(s) ==> TrimSpace(s) == s
  {
    TrimLeftFront(s);
    TrimRightKeepsFront(TrimLeft(s));
  }

  // ------------------------------------------------------------- decimals

  predicate IsDigit(c: char) { '0' <= c <= '9' }

  function DigitOf(d: nat): (c: char)
    requires d < 10
    ensures IsDigit(c)
  {
    "0123456789"[d]
  }

  function ValueOf(c: char): (d: nat)
    requires IsDigit(c)
    ensures d < 10 && DigitOf(d) == c
  {
    assert forall d: nat | d < 10 :: DigitOf(d) as int == '0' as int + d;
    c as int - '0' as int
  }

  function FormatNat(n: nat): (s: string)
    ensures |s| > 0 && forall c | c in s :: IsDigit(c)
  {
    if n < 10 then [DigitOf(n)] else FormatNat(n / 10) + [DigitOf(n % 10)]
  }

  /** strconv.FormatInt(n, 10), and what %d prints. */
  function FormatInt(n: int): string {
    if n < 0 then "-" + FormatNat(-n) else FormatNat(n)
  }

  function ParseDigits(s: string): (r: Option<nat>) {
    if |s| == 0 then Some(0)
    else if !IsDigit(s[|s| - 1]) then None
    else match ParseDigits(s[..|s| - 1])
      case None => None
      case Some(high) => Some(10 * high + ValueOf(s[|s| - 1]))
  }

  /** strconv.ParseInt(s, 10, 32): an optional sign, at least one digit, in range. */
  function ParseInt32(s: string): (r: Option<int32>) {
    var signed := |s| > 0 && (s[0] == '-' || s[0] == '+');
    var digits := if signed then s[1..] else s;
    if |digits| == 0 then None
    else match ParseDigits(digits)
      case None => None
      case Some(n) =>
        var value: int := if signed && s[0] == '-' then -(n as int) else n;
        if -0x8000_0000 <= value < 0x8000_0000 then Some(value) else None
  }

  lemma {:induction false} ParseUndoesFormatNat(n: nat)
    ensures ParseDigits(FormatNat(n)) == Some(n)
  {
    var s := FormatNat(n);
    assert forall d: nat | d < 10 :: ValueOf(DigitOf(d)) == d;
    if n < 10 {
      assert s[..0] == "";
    } else {
      ParseUndoesFormatNat(n / 10);
      assert s[..|s| - 1] == FormatNat(n / 10);
    }
  }

  lemma ParseUndoesFormat(n: int32)
    ensures ParseInt32(FormatInt(n)) == Some(n)
  {
    var size: nat := if n < 0 then -(n as int) else n;
    var s := FormatInt(n);
    ParseUndoesFormatNat(size);
    if n < 0 {
      assert s[1..] == FormatNat(size);
    } else {
      assert s[0] in s;
    }
  }

  predicate Zeros(s: string) { forall c | c in s :: c == '0' }

  /** Zeros in front of the decimal form change nothing. */
  lemma {:induction false} PaddingReads(zeros: string, n: nat)
    requires Zeros(zeros)
    ensures ParseDigits(zeros + FormatNat(n)) == Some(n)
  {
    var s := zeros + FormatNat(n);
    assert forall d: nat | d < 10 :: ValueOf(DigitOf(d)) == d;
    if n >= 10 {
      PaddingReads(zeros, n / 10);
      assert s[..|s| - 1] == zeros + FormatNat(n / 10);
    } else {
      ZerosRead(zeros);
      assert s[..|s| - 1] == zeros;
    }
  }

  lemma {:induction false} ZerosRead(zeros: string)
    requires Zeros(zeros)
    ensures ParseDigits(zeros) == Some(0)
  {
    if |zeros| > 0 {
      var front, last := zeros[..|zeros| - 1], zeros[|zeros| - 1];
      assert last in zeros && zeros == front + [last];
      forall c | c in front ensures c == '0' { assert c in zeros; }
      ZerosRead(front);
      assert ValueOf('0') == 0;
    }
  }

  lemma {:induction false} Padding(s: string, n: nat) returns (zeros: string)
    requires |s| > 0 && ParseDigits(s) == Some(n)
    ensures Zeros(zeros) && s == zeros + FormatNat(n)
  {
    var front, last := s[..|s| - 1], s[|s| - 1];
    assert s == front + [last] && DigitOf(ValueOf(last)) == last;
    if |front| == 0 {
      zeros := "";
    } else {
      var high := ParseDigits(front).value;
      var before := Padding(front, high);
      if high == 0 {
        assert DigitOf(0) == '0' && FormatNat(0) == ['0'];
        zeros := before + FormatNat(0);
      } else {
        assert n / 10 == high && n % 10 == ValueOf(last);
        zeros := before;
      }
    }
  }

  /** `s` is a sign or none, and then the decimal form of the size of `n`, any number of zeros in front. */
  ghost predicate Spells(s: string, sign: string, zeros: string, n: int) {
    && ((sign == "-" && n <= 0) || ((sign == "" || sign == "+") && n >= 0)) && Zeros(zeros)
    && s == sign + (zeros + FormatNat(if n < 0 then -n else n))
  }

  lemma LeadsWithADigit(zeros: string, n: nat)
    requires Zeros(zeros)
    ensures IsDigit((zeros + FormatNat(n))[0])
  {
    var digits := zeros + FormatNat(n);
    if |zeros| > 0 { assert zeros[0] in zeros; } else { assert digits == FormatNat(n) && digits[0] in FormatNat(n); }
  }

  lemma SpelledReads(s: string, sign: string, zeros: string, n: int32)
    requires Spells(s, sign, zeros, n)
    ensures ParseInt32(s) == Some(n)
  {
    var size: nat := if n < 0 then -(n as int) else n;
    var digits := zeros + FormatNat(size);
    LeadsWithADigit(zeros, size);
    PaddingReads(zeros, size);
    if sign == "" { assert s == digits; } else { assert s[0] == sign[0] && s[1..] == digits; }
  }

  lemma ReadIsSpelled(s: string, n: int32) returns (sign: string, zeros: string)
    requires ParseInt32(s) == Some(n)
    ensures Spells(s, sign, zeros, n)
  {
    var signed := s[0] == '-' || s[0] == '+';
    var digits := if signed then s[1..] else s;
    sign := if signed then [s[0]] else "";
    assert s == sign + digits;
    zeros := Padding(digits, if n < 0 then -(n as int) else n);
  }

  /** The numbers read are those, if they fit 32 bits, and no others. */
  lemma NumbersAre(s: string, n: int32)
    ensures ParseInt32(s) == Some(n) <==> exists sign, zeros :: Spells(s, sign, zeros, n)
  {
    if sign, zeros :| Spells(s, sign, zeros, n) { SpelledReads(s, sign, zeros, n); }
    if ParseInt32(s) == Some(n) {
      var sign, zeros := ReadIsSpelled(s, n);
    }
  }

  // --------------------------------------------------------------- joining

  /** strings.Join(parts, ","). */
  function JoinComma(parts: seq<string>): string {
    if |parts| == 0 then ""
    else if |parts| == 1 then parts[0]
    else parts[0] + "," + JoinComma(parts[1..])
  }

  /** The parts between the commas, of which there is always at least one. */
  function SplitComma(s: string): (r: seq<string>)
    ensures |r| > 0
  {
    if |s| == 0 then [""]
    else
      var rest := SplitComma(s[1..]);
      if s[0] == ',' then [""] + rest else [[s[0]] + rest[0]] + rest[1..]
  }

  lemma {:induction false} SplitAfterPart(part: string, rest: string)
    requires ',' !in part
    ensures SplitComma(part + "," + rest) == [part] + SplitComma(rest)
  {
    var s := part + "," + rest;
    if |part| == 0 {
      assert s[1..] == rest;
    } else {
      assert s[1..] == part[1..] + "," + rest;
      SplitAfterPart(part[1..], rest);
      assert [part[0]] + part[1..] == part;
    }
  }

  lemma {:induction false} SplitOnePart(part: string)
    requires ',' !in part
    ensures SplitComma(part) == [part]
  {
    if |part| > 0 {
      SplitOnePart(part[1..]);
      assert [part[0]] + part[1..] == part;
    }
  }

  /** Joined names can be told apart again, as long as none of them holds a comma. */
  lemma {:induction false} SplitUndoesJoin(parts: seq<string>)
    requires |parts| > 0 && forall part | part in parts :: ',' !in part
    ensures SplitComma(JoinComma(parts)) == parts
  {
    if |parts| == 1 {
      SplitOnePart(parts[0]);
    } else {
      SplitUndoesJoin(parts[1..]);
      SplitAfterPart(parts[0], JoinComma(parts[1..]));
      assert [parts[0]] + parts[1..] == parts;
    }
  }

  // ---------------------------------------------------------- what order and numbers look like

  /** A prefix comes first, and otherwise the string with the smaller character where they first differ. */
  lemma {:induction false} LeqIsLexicographic(a: string, b: string)
    ensures Leq(a, b) <==> a <= b || exists i :: DiffersAt(a, b, i) && a[i] < b[i]
  {
    if |a| > 0 && |b| > 0 {
      var x, y := a[1..], b[1..];
      LeqIsLexicographic(x, y);
      assert a <= b <==> a[0] == b[0] && x <= y by { assert a == [a[0]] + x && b == [b[0]] + y; }
      if a[0] == b[0] {
        forall i | DiffersAt(x, y, i) ensures DiffersAt(a, b, i + 1) { DiffersAfter(a, b, i); }
        forall i | DiffersAt(a, b, i) ensures i > 0 && DiffersAt(x, y, i - 1) { DiffersAfter(a, b, i - 1); }
        if i :| DiffersAt(x, y, i) && x[i] < y[i] { assert a[i + 1] < b[i + 1]; }
        if i :| DiffersAt(a, b, i) && a[i] < b[i] { assert x[i - 1] < y[i - 1]; }
      } else {
        assert DiffersAt(a, b, 0);
        assert forall i | DiffersAt(a, b, i) :: i == 0;
      }
    }
  }

  ghost predicate DiffersAt(a: string, b: string, i: int) {
    0 <= i < |a| && i < |b| && a[i] != b[i] && forall j | 0 <= j < i :: a[j] == b[j]
  }

  lemma DiffersAfter(a: string, b: string, i: int)
    requires |a| > 0 && |b| > 0 && a[0] == b[0] && i >= 0
    ensures DiffersAt(a, b, i + 1) <==> DiffersAt(a[1..], b[1..], i)
  {
    assert forall j | 0 <= j < i && j < |a| - 1 && j < |b| - 1 :: a[1..][j] == a[j + 1] && b[1..][j] == b[j + 1];
    assert forall j | 0 < j <= i && j < |a| && j < |b| :: a[j] == a[1..][j - 1] && b[j] == b[1..][j - 1];
  }

  function PowerOfTen(k: nat): nat { if k == 0 then 1 else 10 * PowerOfTen(k - 1) }

  /** Decimal: the k-th character from the right is the k-th digit of the number, and none is wasted. */
  lemma {:induction false} FormatIsDecimal(n: nat, k: nat)
    requires k < |FormatNat(n)|
    ensures PowerOfTen(k) > 0
    ensures FormatNat(n)[|FormatNat(n)| - 1 - k] as int == '0' as int + (n / PowerOfTen(k)) % 10
    ensures n > 0 ==> FormatNat(n)[0] != '0'
  {
    assert forall d: nat | d < 10 :: DigitOf(d) as int == '0' as int + d;
    if n >= 10 {
      if k > 0 {
        FormatIsDecimal(n / 10, k - 1);
        DivideTwice(n, PowerOfTen(k - 1));
      } else {
        FormatIsDecimal(n / 10, 0);
      }
    }
  }

  lemma DivideTwice(n: nat, p: nat)
    requires p > 0
    ensures n / 10 / p == n / (10 * p)
  {
    var q := n / (10 * p);
    var r := n % (10 * p);
    assert n == q * (10 * p) + r;
    assert n / 10 == q * p + r / 10 by { assert n == 10 * (q * p) + r; }
    assert r / 10 < p;
    QuotientIs(n / 10, p, q, r / 10);
  }

  lemma QuotientIs(x: nat, p: nat, q: nat, r: nat)
    requires p > 0 && x == q * p + r && r < p
    ensures x / p == q
  {
    var d := x / p - q;
    assert x == (x / p) * p + x % p;
    assert d * p == r - x % p;
    Multiples(d, p);
  }

  lemma Multiples(d: int, p: int)
    requires p > 0
    ensures d >= 1 ==> d * p >= p
    ensures d <= -1 ==> d * p <= -p
  {
  }
}
