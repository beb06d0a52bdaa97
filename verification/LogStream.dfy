/** Integers to text: digits are written backwards into the buffer and then reversed in place. */
module LogStream {
  import opened Common

  const SMALL_BUFFER := 4000
  const MAX_NUMERIC_SIZE := 32
  const DIGITS := "9876543210123456789"
  const DIGITS_HEX := "0123456789ABCDEF"

  // ------------------------------------------------------- what text means

  /** The two bases the stream prints in. */
  type Base = b: int | b == 10 || b == 16 witness 10

  /** All digits of `n` but the last, and the last. */
  function High(n: nat, base: Base): (h: nat)
    ensures h <= n && (n > 0 ==> h < n) && (n < base <==> h == 0)
  {
    if base == 10 then n / 10 else n / 16
  }

  function Low(n: nat, base: Base): (d: nat)
    ensures d < base && (n < base ==> d == n)
  {
    if base == 10 then n % 10 else n % 16
  }

  function Shifted(high: nat, low: nat, base: Base): (n: nat)
    requires low < base
    ensures High(n, base) == high && Low(n, base) == low
    ensures high > 0 ==> n >= base
  {
    if base == 10 then high * 10 + low else high * 16 + low
  }

  lemma ShiftedBack(n: nat, base: Base)
    ensures Shifted(High(n, base), Low(n, base), base) == n
  {
  }

  predicate IsDigit(c: char, base: Base) {
    c in DIGITS_HEX[..base]
  }

  function DigitValue(c: char, base: Base): (d: nat)
    requires IsDigit(c, base)
    ensures d < base && DIGITS_HEX[d] == c
  {
    DigitIs(c, base);
    if c <= '9' then c as int - '0' as int else c as int - 'A' as int + 10
  }

  lemma DigitIs(c: char, base: Base)
    requires IsDigit(c, base)
    ensures '0' <= c <= '9' || (base == 16 && 'A' <= c <= 'F')
  {
    var i :| 0 <= i < base && DIGITS_HEX[..base][i] == c;
    assert DIGITS_HEX[i] == c;
  }

  /** The number that a row of digits stands for, most significant first. */
  function ParseNat(s: string, base: Base): (r: Option<int>)
    ensures r.Some? ==> r.value >= 0
  {
    if s == "" then None
    else if !IsDigit(s[|s| - 1], base) then None
    else if |s| == 1 then Some(DigitValue(s[0], base))
    else
      match ParseNat(s[..|s| - 1], base)
      case None => None
      case Some(n) => Some(Shifted(n, DigitValue(s[|s| - 1], base), base))
  }

  function ParseInt(s: string): Option<int> {
    if s != "" && s[0] == '-' then
      match ParseNat(s[1..], 10)
      case None => None
      case Some(n) => Some(-n)
    else
      match ParseNat(s, 10)
      case None => None
      case Some(n) => Some(n)
  }

  /** The digits of `n`, least significant first: the order in which they are produced. */
  function LowFirst(n: nat, base: Base): (s: string)
    ensures s != ""
  {
    if n < base then [DIGITS_HEX[n]] else [DIGITS_HEX[Low(n, base)]] + LowFirst(High(n, base), base)
  }

  function Reversed(s: string): (r: string)
    ensures |r| == |s| && forall k :: 0 <= k < |s| ==> r[k] == s[|s| - 1 - k]
  {
    if s == "" then "" else Reversed(s[1..]) + [s[0]]
  }

  function Text(n: nat, base: Base): (s: string)
    ensures s != ""
  {
    Reversed(LowFirst(n, base))
  }

  function Abs(n: int): nat {
    if n < 0 then -n else n
  }

  function Decimal(n: int): (s: string)
    ensures s != ""
  {
    (if n < 0 then "-" else "") + Text(Abs(n), 10)
  }

  lemma TextStep(n: nat, base: Base)
    requires n >= base
    ensures Text(n, base) == Text(High(n, base), base) + [DIGITS_HEX[Low(n, base)]]
  {
    assert LowFirst(n, base)[1..] == LowFirst(High(n, base), base);
  }

  lemma DigitBack(d: nat, base: Base)
    requires d < base
    ensures IsDigit(DIGITS_HEX[d], base) && DigitValue(DIGITS_HEX[d], base) == d
  {
    assert DIGITS_HEX[d] == DIGITS_HEX[..base][d];
  }

  predicate AllDigits(s: string) {
    forall i :: 0 <= i < |s| ==> '0' <= s[i] <= '9'
  }

  lemma DecimalDigit(d: nat)
    requires d < 10
    ensures '0' <= DIGITS_HEX[d] <= '9'
  {
  }

  /** The text of a number in base ten consists of digits. */
  lemma {:induction false} TextIsDigits(n: nat)
    ensures AllDigits(Text(n, 10))
    decreases n
  {
    DecimalDigit(Low(n, 10));
    if n < 10 {
      assert Text(n, 10) == [DIGITS_HEX[n]];
    } else {
      TextStep(n, 10);
      TextIsDigits(High(n, 10));
    }
  }

  /** The text of a number parses back to it. */
  lemma {:induction false} TextParses(n: nat, base: Base)
    ensures ParseNat(Text(n, base), base) == Some(n)
    decreases n
  {
    if n < base {
      DigitBack(n, base);
      assert Text(n, base) == [DIGITS_HEX[n]];
    } else {
      TextStep(n, base);
      TextParses(High(n, base), base);
      DigitBack(Low(n, base), base);
      var s := Text(n, base);
      assert s[..|s| - 1] == Text(High(n, base), base);
      ShiftedBack(n, base);
    }
  }

  /** Every integer, the least one of any width included, parses back from its text. */
  lemma DecimalParses(n: int)
    ensures ParseInt(Decimal(n)) == Some(n)
  {
    TextParses(Abs(n), 10);
    var t := Text(Abs(n), 10);
    assert ("-" + t)[1..] == t && "" + t == t;
    if t[0] == '-' {
      NoMinus(t);
    }
  }

  lemma {:induction false} NoMinus(s: string)
    requires s != "" && s[0] == '-'
    ensures ParseNat(s, 10) == None
    decreases |s|
  {
    if |s| > 1 {
      NoMinus(s[..|s| - 1]);
    }
  }

  /** No superfluous leading zero. */
  predicate Canonical(s: string) {
    |s| > 1 ==> s[0] != '0'
  }

  lemma {:induction false} ParsedNotZero(s: string, base: Base)
    requires ParseNat(s, base).Some? && Canonical(s) && |s| > 1
    ensures ParseNat(s, base).value >= base
    decreases |s|
  {
    if |s| > 2 {
      ParsedNotZero(s[..|s| - 1], base);
    } else {
      assert s[..1] == [s[0]];
      assert DIGITS_HEX[0] == '0';
    }
  }

  /** The text produced is the only canonical one: a row of digits without a leading zero that
      parses to `n` is the text of `n`. */
  lemma {:induction false} TextUnique(s: string, base: Base)
    requires ParseNat(s, base).Some? && Canonical(s)
    ensures s == Text(ParseNat(s, base).value, base)
    decreases |s|
  {
    if |s| == 1 {
      OneDigit(s, base);
    } else {
      var front, last := s[..|s| - 1], s[|s| - 1];
      ParsedInTwo(s, front, last, base);
      TextUnique(front, base);
      OneDigitMore(ParseNat(front, base).value, last, base);
    }
  }

  lemma ParsedInTwo(s: string, front: string, last: char, base: Base)
    requires |s| > 1 && ParseNat(s, base).Some? && Canonical(s) && front == s[..|s| - 1] && last == s[|s| - 1]
    ensures s == front + [last] && Canonical(front) && IsDigit(last, base) && ParseNat(front, base).Some?
    ensures var n := Shifted(ParseNat(front, base).value, DigitValue(last, base), base);
      ParseNat(s, base) == Some(n) && n >= base
  {
    ParsedNotZero(s, base);
  }

  lemma OneDigitMore(n: nat, last: char, base: Base)
    requires IsDigit(last, base) && Shifted(n, DigitValue(last, base), base) >= base
    ensures Text(Shifted(n, DigitValue(last, base), base), base) == Text(n, base) + [last]
  {
    TextStep(Shifted(n, DigitValue(last, base), base), base);
  }

  lemma OneDigit(s: string, base: Base)
    requires |s| == 1 && IsDigit(s[0], base)
    ensures s == Text(DigitValue(s[0], base), base)
  {
    assert s == [DIGITS_HEX[DigitValue(s[0], base)]];
  }

  // ------------------------------------------------------- how long it is

  function Pow10(k: nat): nat {
    if k == 0 then 1 else 10 * Pow10(k - 1)
  }

  lemma {:induction false} LengthBelow(n: nat, k: nat)
    requires k >= 1 && n < Pow10(k)
    ensures |LowFirst(n, 10)| <= k
    decreases k
  {
    if n >= 10 {
      assert k > 1;
      LengthBelow(High(n, 10), k - 1);
    }
  }

  lemma Pow10Of20()
    ensures Pow10(20) == 1_00000_00000_00000_00000
  {
    assert Pow10(4) == 10000;
    assert Pow10(8) == 10000 * 10000;
    assert Pow10(12) == 10000 * 10000 * 10000;
    assert Pow10(16) == 10000 * 10000 * 10000 * 10000;
    assert Pow10(20) == 10000 * 10000 * 10000 * 10000 * 10000;
  }

  /** Any 64-bit integer, signed or unsigned, fits in the space the stream insists on, with room
      for the terminating zero. */
  lemma FitsNumericSize(n: int)
    requires -0x8000_0000_0000_0000 <= n < 0x1_0000_0000_0000_0000
    ensures |Decimal(n)| < MAX_NUMERIC_SIZE
  {
    Pow10Of20();
    LengthBelow(Abs(n), 20);
  }

  lemma {:induction false} HexLength(n: nat, k: nat, bound: nat)
    requires k >= 1 && bound == Pow16(k) && n < bound
    ensures |LowFirst(n, 16)| <= k
    decreases k
  {
    if n >= 16 {
      assert k > 1;
      HexLength(High(n, 16), k - 1, Pow16(k - 1));
    }
  }

  function Pow16(k: nat): nat {
    if k == 0 then 1 else 16 * Pow16(k - 1)
  }

  lemma PointerFits(n: nat)
    requires n < 0x1_0000_0000_0000_0000
    ensures |Text(n, 16)| + 2 < MAX_NUMERIC_SIZE
  {
    assert Pow16(4) == 0x1_0000;
    assert Pow16(8) == 0x1_0000_0000;
    assert Pow16(12) == 0x1_0000_0000_0000;
    assert Pow16(16) == 0x1_0000_0000_0000_0000;
    HexLength(n, 16, Pow16(16));
  }

  // ------------------------------------------------------------- the code

  /** Division and remainder by ten that round toward zero. */
  function Quot(a: int): (q: int)
    ensures Abs(q) == High(Abs(a), 10) && (q > 0 ==> a > 0) && (q < 0 ==> a < 0)
  {
    if a < 0 then -(-a / 10) else a / 10
  }

  function Rem(a: int): (r: int)
    ensures -10 < r < 10 && Abs(r) == Low(Abs(a), 10)
  {
    if a < 0 then -(-a % 10) else a % 10
  }

  lemma MiddleDigit(lsd: int)
    requires -10 < lsd < 10
    ensures DIGITS[9 + lsd] == DIGITS_HEX[Abs(lsd)]
  {
  }

  /** One turn of the loop yields the next digit, whatever the sign. */
  lemma NextDigit(i: int)
    ensures LowFirst(Abs(i), 10) == [DIGITS[9 + Rem(i)]] + if Quot(i) == 0 then "" else LowFirst(Abs(Quot(i)), 10)
  {
    MiddleDigit(Rem(i));
  }

  /** Reverses `buf[lo..hi]` in place. */
  method ReverseRange(buf: array<char>, lo: nat, hi: nat)
    requires lo <= hi <= buf.Length
    modifies buf
    ensures forall k :: 0 <= k < lo || hi <= k < buf.Length ==> buf[k] == old(buf[k])
    ensures buf[lo..hi] == Reversed(old(buf[lo..hi]))
  {
    var i, j := lo, hi;
    while i < j && i < j - 1
      invariant lo <= i <= j <= hi && i - lo == hi - j
      invariant forall k :: 0 <= k < lo || hi <= k < buf.Length || i <= k < j ==> buf[k] == old(buf[k])
      invariant forall k :: lo <= k < i || j <= k < hi ==> buf[k] == old(buf[lo + hi - 1 - k])
    {
      j := j - 1;
      buf[i], buf[j] := buf[j], buf[i];
      i := i + 1;
    }
    ghost var was, now := old(buf[lo..hi]), buf[lo..hi];
    assert forall k :: 0 <= k < |now| ==> now[k] == buf[lo + k] && was[k] == old(buf[lo + k]);
    ReversedIs(was, now);
  }

  lemma ReversedIs(was: string, now: string)
    requires |now| == |was| && forall k :: 0 <= k < |now| ==> now[k] == was[|was| - 1 - k]
    ensures now == Reversed(was)
  {
  }

  /** What the loop writes: the digits from the last to the first, then the sign. */
  function Backwards(value: int): string {
    LowFirst(Abs(value), 10) + if value < 0 then "-" else ""
  }

  lemma SignFirst(value: int)
    ensures Reversed(Backwards(value)) == Decimal(value) && |Backwards(value)| == |Decimal(value)|
  {
    assert LowFirst(Abs(value), 10) + "" == LowFirst(Abs(value), 10);
  }

  /** Ends the text with a zero and turns it round. */
  method Finish(buf: array<char>, start: nat, p: nat, ghost text: string) returns (len: nat)
    requires start <= p < buf.Length && text == Reversed(buf[start..p])
    modifies buf
    ensures len == |text| && start + len == p && buf[start..start + len] == text && buf[start + len] == '\0'
    ensures forall k :: 0 <= k < start || start + len < k < buf.Length ==> buf[k] == old(buf[k])
  {
    buf[p] := '\0';
    assert buf[start..p] == old(buf[start..p]);
    ReverseRange(buf, start, p);
    len := p - start;
  }

  /** Stores the last digit of `i` and takes it off. */
  method PutDigit(buf: array<char>, p: nat, i: int) returns (rest: int)
    requires p < buf.Length
    modifies buf
    ensures rest == Quot(i)
    ensures LowFirst(Abs(i), 10) == [buf[p]] + if rest == 0 then "" else LowFirst(Abs(rest), 10)
    ensures forall k :: 0 <= k < buf.Length && k != p ==> buf[k] == old(buf[k])
  {
    NextDigit(i);
    var lsd := Rem(i);
    buf[p] := DIGITS[9 + lsd];
    rest := Quot(i);
  }

  /** Produces the digits, the last first; returns the place after them. */
  method PutDigits(buf: array<char>, start: nat, value: int) returns (p: nat)
    requires start + |LowFirst(Abs(value), 10)| < buf.Length
    modifies buf
    ensures p == start + |LowFirst(Abs(value), 10)|
    ensures forall k :: start <= k < p ==> buf[k] == LowFirst(Abs(value), 10)[k - start]
    ensures forall k :: 0 <= k < start || p <= k < buf.Length ==> buf[k] == old(buf[k])
  {
    var i, more := value, true;
    p := start;
    ghost var all := LowFirst(Abs(value), 10);
    ghost var left := all;
    while more
      invariant start <= p <= start + |all|
      invariant |left| == start + |all| - p && (more ==> left == LowFirst(Abs(i), 10))
      invariant forall j :: 0 <= j < |left| ==> left[j] == all[|all| - |left| + j]
      invariant !more ==> p == start + |all|
      invariant forall k :: start <= k < p ==> buf[k] == all[k - start]
      invariant forall k :: 0 <= k < start || p <= k < buf.Length ==> buf[k] == old(buf[k])
      decreases more, Abs(i)
    {
      i := PutDigit(buf, p, i);
      assert left[0] == buf[p];
      left := left[1..];
      p := p + 1;
      more := i != 0;
    }
  }

  /** The digits and the sign, in the order of writing. */
  method PutBackwards(buf: array<char>, start: nat, value: int) returns (p: nat)
    requires start + |Backwards(value)| < buf.Length
    modifies buf
    ensures p == start + |Backwards(value)| && buf[start..p] == Backwards(value)
    ensures forall k :: 0 <= k < start || p <= k < buf.Length ==> buf[k] == old(buf[k])
  {
    p := PutDigits(buf, start, value);
    if value < 0 {
      buf[p] := '-';
      p := p + 1;
    }
    ghost var all, written := Backwards(value), buf[start..p];
    assert |written| == |all|;
    forall k | 0 <= k < |all| ensures written[k] == all[k] {
      assert written[k] == buf[start + k];
    }
  }

  /** Decimal text of `value` at `start`, with a terminating zero. */
  method Convert(buf: array<char>, start: nat, value: int) returns (len: nat)
    requires start + |Decimal(value)| < buf.Length
    modifies buf
    ensures len == |Decimal(value)| && buf[start..start + len] == Decimal(value)
    ensures buf[start + len] == '\0'
    ensures forall k :: 0 <= k < start || start + len < k < buf.Length ==> buf[k] == old(buf[k])
  {
    SignFirst(value);
    var p := PutBackwards(buf, start, value);
    len := Finish(buf, start, p, Decimal(value));
  }

  method PutHexDigit(buf: array<char>, p: nat, i: nat) returns (rest: nat)
    requires p < buf.Length
    modifies buf
    ensures rest == High(i, 16)
    ensures LowFirst(i, 16) == [buf[p]] + if rest == 0 then "" else LowFirst(rest, 16)
    ensures forall k :: 0 <= k < buf.Length && k != p ==> buf[k] == old(buf[k])
  {
    var lsd := i % 16;
    buf[p] := DIGITS_HEX[lsd];
    rest := i / 16;
  }

  /** The digits of `value` in base sixteen, the last first; returns the place after them. */
  method PutHexDigits(buf: array<char>, start: nat, value: nat) returns (p: nat)
    requires start + |LowFirst(value, 16)| < buf.Length
    modifies buf
    ensures p == start + |LowFirst(value, 16)|
    ensures forall k :: start <= k < p ==> buf[k] == LowFirst(value, 16)[k - start]
    ensures forall k :: 0 <= k < start || p <= k < buf.Length ==> buf[k] == old(buf[k])
  {
    var i, more := value, true;
    p := start;
    ghost var all := LowFirst(value, 16);
    ghost var left := all;
    while more
      invariant start <= p <= start + |all|
      invariant |left| == start + |all| - p && (more ==> left == LowFirst(i, 16))
      invariant forall j :: 0 <= j < |left| ==> left[j] == all[|all| - |left| + j]
      invariant !more ==> p == start + |all|
      invariant forall k :: start <= k < p ==> buf[k] == all[k - start]
      invariant forall k :: 0 <= k < start || p <= k < buf.Length ==> buf[k] == old(buf[k])
      decreases more, i
    {
      i := PutHexDigit(buf, p, i);
      assert left[0] == buf[p];
      left := left[1..];
      p := p + 1;
      more := i != 0;
    }
  }

  /** Hexadecimal text of `value` at `start`, with a terminating zero. */
  method ConvertHex(buf: array<char>, start: nat, value: nat) returns (len: nat)
    requires start + |Text(value, 16)| < buf.Length
    modifies buf
    ensures len == |Text(value, 16)| && buf[start..start + len] == Text(value, 16)
    ensures buf[start + len] == '\0'
    ensures forall k :: 0 <= k < start || start + len < k < buf.Length ==> buf[k] == old(buf[k])
  {
    var p := PutHexDigits(buf, start, value);
    assert buf[start..p] == LowFirst(value, 16);
    len := Finish(buf, start, p, Text(value, 16));
  }

  /** The address as the stream shows it: a mark, then its text in base sixteen. */
  method PutPointer(buf: array<char>, start: nat, value: nat) returns (len: nat)
    requires start + 2 + |Text(value, 16)| < buf.Length
    modifies buf
    ensures len == 2 + |Text(value, 16)| && buf[start..start + len] == "0x" + Text(value, 16)
    ensures forall k :: 0 <= k < start || start + len < k < buf.Length ==> buf[k] == old(buf[k])
  {
    buf[start] := '0';
    buf[start + 1] := 'x';
    var n := ConvertHex(buf, start + 2, value);
    len := n + 2;
    assert buf[start..start + len] == buf[start..start + 2] + buf[start + 2..start + 2 + n];
    assert buf[start..start + 2] == "0x";
  }

  /** The stream: a fixed buffer that silently leaves out what does not fit. */
  class LogStream {
    const data: array<char>
    var cur: nat

    ghost predicate Valid()
      reads this
    {
      data.Length == SMALL_BUFFER && cur <= data.Length
    }

    ghost function Contents(): string
      requires Valid()
      reads this, data
    {
      data[..cur]
    }

    constructor ()
      ensures Valid() && fresh(data) && Contents() == ""
    {
      data := new char[SMALL_BUFFER];
      cur := 0;
    }

    function Avail(): nat
      requires Valid()
      reads this
    {
      data.Length - cur
    }

    /** `<<` of any 64-bit integer: all of its text or none of it. */
    method FormatInteger(v: int)
      requires Valid() && -0x8000_0000_0000_0000 <= v < 0x1_0000_0000_0000_0000
      modifies this`cur, data
      ensures Valid()
      ensures Contents() == old(Contents()) + if old(Avail()) >= MAX_NUMERIC_SIZE then Decimal(v) else ""
    {
      if Avail() >= MAX_NUMERIC_SIZE {
        FitsNumericSize(v);
        var len := Convert(data, cur, v);
        cur := cur + len;
      }
    }

    /** `<<` of a pointer. */
    method FormatPointer(v: nat)
      requires Valid() && v < 0x1_0000_0000_0000_0000
      modifies this`cur, data
      ensures Valid()
      ensures Contents() == old(Contents()) + if old(Avail()) >= MAX_NUMERIC_SIZE then "0x" + Text(v, 16) else ""
    {
      if Avail() >= MAX_NUMERIC_SIZE {
        PointerFits(v);
        ghost var before := data[..cur];
        var len := PutPointer(data, cur, v);
        assert data[..cur] == before;
        assert data[..cur + len] == before + data[cur..cur + len];
        cur := cur + len;
      }
    }

    /** `<<` of a string: whole, or not at all. */
    method Append(buf: string)
      requires Valid()
      modifies this`cur, data
      ensures Valid()
      ensures Contents() == old(Contents()) + if old(Avail()) > |buf| then buf else ""
    {
      if Avail() > |buf| {
        var i := 0;
        while i < |buf|
          invariant 0 <= i <= |buf| && cur == old(cur)
          invariant forall k :: 0 <= k < cur ==> data[k] == old(data[k])
          invariant forall k :: 0 <= k < i ==> data[cur + k] == buf[k]
        {
          data[cur + i] := buf[i];
          i := i + 1;
        }
        cur := cur + |buf|;
      }
    }
  }
}
