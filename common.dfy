/**
 * Byte strings and the handful of PHP string built-ins the FPDF code relies on
 * (strtolower, str_replace, rtrim, explode, hexdec, round, string-to-number
 * conversion and truthiness), together with the wrappers that stand for PHP
 * exceptions.
 */
module Common {

  /** A PHP string is a string of bytes; a char below 256 stands for one byte,
      so that string literals can be written directly. */
  type byte = c: char | c as int < 256
  type Bytes = seq<byte>

  datatype Option<T> = None | Some(value: T)

  /** The value of a PHP call that may throw: the thrown message, or the value. */
  datatype Result<T> = Ok(value: T) | Err(msg: Bytes)

  /** The outcome of a PHP method that returns nothing but may throw. */
  datatype Outcome = Pass | Fail(msg: Bytes)

  function Chr(n: nat): byte
    requires n < 256
  {
    n as char
  }

  /** A slice of a slice is a slice of the whole. */
  lemma SliceOf(s: Bytes, p: nat, e: Bytes, i: nat, j: nat)
    requires p + |e| <= |s| && s[p..p + |e|] == e && i <= j <= |e|
    ensures s[p + i..p + j] == e[i..j]
  {
    forall k | 0 <= k < j - i
      ensures s[p + i..p + j][k] == e[i..j][k]
    {
      assert e[i + k] == s[p..p + |e|][i + k];
    }
  }

  /** PHP truthiness of a string: "" and "0" are false. */
  predicate Truthy(s: Bytes)
  {
    s != "" && s != "0"
  }

  // ---------------------------------------------------------------- decimals

  predicate IsDigit(c: byte)
  {
    '0' <= c <= '9'
  }

  predicate AllDigits(s: Bytes)
  {
    forall i :: 0 <= i < |s| ==> IsDigit(s[i])
  }

  function DigitChar(d: nat): (c: byte)
    requires d < 10
    ensures IsDigit(c) && c as int - '0' as int == d
  {
    (48 + d) as char
  }

  /** The decimal text of a natural number, as PHP prints an int (no leading zero). */
  function NatText(n: nat): (r: Bytes)
    ensures 1 <= |r| && AllDigits(r)
    ensures |r| > 1 ==> r[0] != '0'
    decreases n
  {
    if n < 10 then [DigitChar(n)] else NatText(n / 10) + [DigitChar(n % 10)]
  }

  /** The decimal text of an int, as PHP's string conversion writes it. */
  function IntText(i: int): Bytes
  {
    if i < 0 then "-" + NatText(-i) else NatText(i)
  }

  /** The value of a string of decimal digits; leading zeros are allowed. */
  function DigitsValue(s: Bytes): nat
    requires AllDigits(s)
  {
    if s == [] then 0
    else DigitsValue(s[..|s| - 1]) * 10 + (s[|s| - 1] as int - '0' as int)
  }

  lemma {:induction false} NatTextRoundTrip(n: nat)
    ensures DigitsValue(NatText(n)) == n
    decreases n
  {
    if n >= 10 {
      var t := NatText(n / 10);
      assert (t + [DigitChar(n % 10)])[..|t|] == t;
      NatTextRoundTrip(n / 10);
    }
  }

  /** NatText is one-to-one: distinct numbers have distinct texts. */
  lemma NatTextInjective(m: nat, n: nat)
    requires NatText(m) == NatText(n)
    ensures m == n
  {
    NatTextRoundTrip(m);
    NatTextRoundTrip(n);
  }

  function Zeros(n: nat): (r: Bytes)
    ensures |r| == n && AllDigits(r)
  {
    seq(n, _ => '0')
  }

  /** sprintf('%010d', n) for a non-negative n: zero padded to at least ten digits. */
  function Pad10(n: nat): Bytes
  {
    var t := NatText(n);
    if |t| < 10 then Zeros(10 - |t|) + t else t
  }

  lemma {:induction false} ZerosValue(z: Bytes)
    requires AllDigits(z) && forall i :: 0 <= i < |z| ==> z[i] == '0'
    ensures DigitsValue(z) == 0
    decreases |z|
  {
    if z != [] {
      ZerosValue(z[..|z| - 1]);
    }
  }

  lemma {:induction false} LeadingZerosValue(z: Bytes, t: Bytes)
    requires AllDigits(z) && AllDigits(t)
    requires forall i :: 0 <= i < |z| ==> z[i] == '0'
    ensures AllDigits(z + t) && DigitsValue(z + t) == DigitsValue(t)
    decreases |t|
  {
    if t == [] {
      assert z + t == z;
      ZerosValue(z);
    } else {
      var u := t[..|t| - 1];
      assert (z + t)[..|z + t| - 1] == z + u;
      LeadingZerosValue(z, u);
    }
  }

  /** An xref offset field is at least ten digits wide and reads back as the offset. */
  lemma Pad10RoundTrip(n: nat)
    ensures |Pad10(n)| >= 10 && AllDigits(Pad10(n))
    ensures DigitsValue(Pad10(n)) == n
    ensures n < 10000000000 ==> |Pad10(n)| == 10
  {
    var t := NatText(n);
    NatTextRoundTrip(n);
    if |t| < 10 {
      LeadingZerosValue(Zeros(10 - |t|), t);
    } else if n < 10000000000 {
      NatTextLength(n, 10);
    }
  }

  function Pow10(e: nat): nat
  {
    if e == 0 then 1 else 10 * Pow10(e - 1)
  }

  /** A number below 10^k has at most k digits. */
  lemma {:induction false} NatTextLength(n: nat, k: nat)
    requires 1 <= k && n < Pow10(k)
    ensures |NatText(n)| <= k
    decreases n
  {
    if n >= 10 {
      NatTextLength(n / 10, k - 1);
    }
  }

  // ------------------------------------------------------------- ASCII case

  function LowerByte(c: byte): byte
  {
    if 'A' <= c <= 'Z' then (c as int + 32) as char else c
  }

  function UpperByte(c: byte): byte
  {
    if 'a' <= c <= 'z' then (c as int - 32) as char else c
  }

  /** strtolower (ASCII letters only). */
  function Lower(s: Bytes): (r: Bytes)
    ensures |r| == |s| && forall i :: 0 <= i < |s| ==> r[i] == LowerByte(s[i])
  {
    seq(|s|, i requires 0 <= i < |s| => LowerByte(s[i]))
  }

  /** strtoupper (ASCII letters only). */
  function Upper(s: Bytes): (r: Bytes)
    ensures |r| == |s| && forall i :: 0 <= i < |s| ==> r[i] == UpperByte(s[i])
  {
    seq(|s|, i requires 0 <= i < |s| => UpperByte(s[i]))
  }

  /** A text strtolower() does not change. */
  predicate IsLower(s: Bytes)
  {
    Lower(s) == s
  }

  /** A text strtoupper() does not change. */
  predicate IsUpper(s: Bytes)
  {
    Upper(s) == s
  }

  /** strtolower() of a lower-case text changes nothing. */
  lemma LowerIsLower(s: Bytes)
    ensures IsLower(Lower(s))
  {
    var t := Lower(s);
    assert forall i :: 0 <= i < |t| ==> Lower(t)[i] == t[i];
  }

  /** strtoupper() of an upper-case text changes nothing. */
  lemma UpperIsUpper(s: Bytes)
    ensures IsUpper(Upper(s))
  {
    var t := Upper(s);
    assert forall i :: 0 <= i < |t| ==> Upper(t)[i] == t[i];
  }

  /** Case-folding first to the other case changes nothing. */
  lemma CaseFolds(s: Bytes)
    ensures Upper(Lower(s)) == Upper(s) && Lower(Upper(s)) == Lower(s)
  {
    assert forall i :: 0 <= i < |s| ==> Upper(Lower(s))[i] == Upper(s)[i];
    assert forall i :: 0 <= i < |s| ==> Lower(Upper(s))[i] == Lower(s)[i];
  }

  // ----------------------------------------------------------- str_replace

  predicate OccursAt(t: Bytes, a: Bytes, p: int)
  {
    0 <= p && p + |a| <= |t| && t[p..p + |a|] == a
  }

  predicate Occurs(t: Bytes, a: Bytes)
  {
    exists p | 0 <= p <= |t| - |a| :: OccursAt(t, a, p)
  }

  /** str_replace(a, r, s): leftmost, non-overlapping occurrences of a become r;
      an empty search string leaves s unchanged. */
  function Replace(s: Bytes, a: Bytes, r: Bytes): Bytes
    decreases |s|
  {
    if |a| == 0 || |s| < |a| then s
    else if s[..|a|] == a then r + Replace(s[|a|..], a, r)
    else [s[0]] + Replace(s[1..], a, r)
  }

  /** Replacing a string that does not occur changes nothing. */
  lemma {:induction false} ReplaceAbsent(s: Bytes, a: Bytes, r: Bytes)
    requires !Occurs(s, a)
    ensures Replace(s, a, r) == s
    decreases |s|
  {
    if |a| > 0 && |s| >= |a| {
      assert !OccursAt(s, a, 0);
      forall p | OccursAt(s[1..], a, p) ensures false {
        assert s[1..][p..p + |a|] == s[p + 1..p + 1 + |a|];
        assert OccursAt(s, a, p + 1);
      }
      ReplaceAbsent(s[1..], a, r);
    }
  }

  predicate Disjoint(r: Bytes, a: Bytes)
  {
    forall c :: c in r ==> c !in a
  }

  /** Any prefix of Replace(x, a, r) is either an untouched prefix of x or holds a byte of r. */
  lemma {:induction false} ReplacePrefix(x: Bytes, a: Bytes, r: Bytes, m: nat)
    requires |a| > 0 && |r| > 0
    requires m <= |Replace(x, a, r)|
    ensures (m <= |x| && x[..m] == Replace(x, a, r)[..m])
         || (exists q :: 0 <= q < m && Replace(x, a, r)[q] in r)
    decreases |x|
  {
    var t := Replace(x, a, r);
    if |x| < |a| {
    } else if x[..|a|] == a {
      if m > 0 {
        assert t[0] == r[0] && r[0] in r;
      }
    } else if m > 0 {
      var t' := Replace(x[1..], a, r);
      assert t == [x[0]] + t';
      ReplacePrefix(x[1..], a, r, m - 1);
      if m - 1 <= |x[1..]| && x[1..][..m - 1] == t'[..m - 1] {
        assert x[..m] == [x[0]] + x[1..][..m - 1];
        assert t[..m] == [x[0]] + t'[..m - 1];
      } else {
        var q :| 0 <= q < m - 1 && t'[q] in r;
        assert t[q + 1] == t'[q];
      }
    }
  }

  /** No occurrence across a replacement that shares no byte with a. */
  lemma NoOccursAfterReplacement(r: Bytes, t: Bytes, a: Bytes)
    requires |a| > 0 && |r| > 0 && Disjoint(r, a) && !Occurs(t, a)
    ensures !Occurs(r + t, a)
  {
    var u := r + t;
    forall p | 0 <= p <= |u| - |a| ensures !OccursAt(u, a, p) {
      if p < |r| {
        assert u[p] == r[p] && r[p] in r;
        assert u[p..p + |a|][0] == u[p];
      } else {
        assert u[p..p + |a|] == t[p - |r|..p - |r| + |a|];
        assert !OccursAt(t, a, p - |r|);
      }
    }
  }

  /** A kept byte does not start an occurrence: the replaced text after it
      begins either with the original bytes, which do not match, or holds
      a byte of r within the first |a| - 1. */
  lemma KeptByteStartsNone(s: Bytes, a: Bytes, r: Bytes)
    requires |a| > 0 && |r| > 0 && Disjoint(r, a) && |s| >= |a| && s[..|a|] != a
    ensures !OccursAt([s[0]] + Replace(s[1..], a, r), a, 0)
  {
    var t' := Replace(s[1..], a, r);
    if |t'| >= |a| - 1 {
      ReplacePrefix(s[1..], a, r, |a| - 1);
      if |a| - 1 <= |s[1..]| && s[1..][..|a| - 1] == t'[..|a| - 1] {
        KeptPrefix(s, t', a);
      } else {
        var q :| 0 <= q < |a| - 1 && t'[q] in r;
        HeldByteBlocks(s[0], t', a, r, q);
      }
    }
  }

  /** A text that starts like s, where a does not start, does not start
      with a either. */
  lemma KeptPrefix(s: Bytes, t: Bytes, a: Bytes)
    requires |a| > 0 && |s| >= |a| && s[..|a|] != a
    requires |t| >= |a| - 1 && s[1..][..|a| - 1] == t[..|a| - 1]
    ensures !OccursAt([s[0]] + t, a, 0)
  {
    var u := [s[0]] + t;
    forall k | 0 <= k < |a| ensures u[k] == s[k] {
      if k > 0 {
        assert t[..|a| - 1][k - 1] == s[1..][..|a| - 1][k - 1];
      }
    }
    assert u[..|a|] == s[..|a|];
  }

  /** A byte of r within the first |a| bytes keeps a from starting there. */
  lemma HeldByteBlocks(x: byte, t: Bytes, a: Bytes, r: Bytes, q: nat)
    requires Disjoint(r, a) && q + 1 < |a| && q < |t| && t[q] in r
    ensures !OccursAt([x] + t, a, 0)
  {
    var u := [x] + t;
    if |u| >= |a| {
      assert u[q + 1] == t[q] && u[q + 1] !in a;
      assert a[q + 1] in a;
      assert u[..|a|][q + 1] != a[q + 1];
    }
  }

  /** A byte put in front of a text without occurrences, where it does
      not start one itself, adds none. */
  lemma NoOccursCons(x: byte, t: Bytes, a: Bytes)
    requires !Occurs(t, a) && !OccursAt([x] + t, a, 0)
    ensures !Occurs([x] + t, a)
  {
    var u := [x] + t;
    forall p | 1 <= p <= |u| - |a| ensures !OccursAt(u, a, p) {
      assert u[p..p + |a|] == t[p - 1..p - 1 + |a|];
      assert !OccursAt(t, a, p - 1);
    }
  }

  /** When the replacement shares no byte with the search string, str_replace
      leaves no occurrence of the search string behind. */
  lemma {:induction false} ReplaceRemovesAll(s: Bytes, a: Bytes, r: Bytes)
    requires |a| > 0 && |r| > 0 && Disjoint(r, a)
    ensures !Occurs(Replace(s, a, r), a)
    decreases |s|
  {
    var t := Replace(s, a, r);
    if |s| < |a| {
      assert t == s;
    } else if s[..|a|] == a {
      assert t == r + Replace(s[|a|..], a, r);
      ReplaceRemovesAll(s[|a|..], a, r);
      NoOccursAfterReplacement(r, Replace(s[|a|..], a, r), a);
    } else {
      assert t == [s[0]] + Replace(s[1..], a, r);
      ReplaceRemovesAll(s[1..], a, r);
      KeptByteStartsNone(s, a, r);
      NoOccursCons(s[0], Replace(s[1..], a, r), a);
    }
  }

  // ---------------------------------------------------------------- substr

  /** substr(s, start, len): the part of s from start, at most len bytes;
      empty when start is past the end. */
  function Substr(s: Bytes, start: nat, len: nat): (r: Bytes)
    ensures |r| <= len
    ensures start + len <= |s| ==> r == s[start..start + len]
  {
    if start >= |s| then [] else s[start..if start + len <= |s| then start + len else |s|]
  }

  /** Removing every occurrence of one byte (str_replace with an empty replacement). */
  function RemoveByte(s: Bytes, c: byte): (r: Bytes)
    ensures c !in r
    ensures |r| <= |s|
  {
    if s == [] then []
    else (if s[0] == c then [] else [s[0]]) + RemoveByte(s[1..], c)
  }

  /** RemoveByte takes out every copy of c and nothing else. */
  lemma {:induction false} RemoveByteCount(s: Bytes, c: byte)
    ensures multiset(RemoveByte(s, c)) == multiset(s)[c := 0]
    decreases |s|
  {
    if s != [] {
      RemoveByteCount(s[1..], c);
      assert s == [s[0]] + s[1..];
    }
  }

  /** Removing a byte that is not there changes nothing. */
  lemma {:induction false} RemoveByteAbsent(s: Bytes, c: byte)
    requires c !in s
    ensures RemoveByte(s, c) == s
    decreases |s|
  {
    if s != [] {
      RemoveByteAbsent(s[1..], c);
      assert s == [s[0]] + s[1..];
    }
  }

  /** RemoveByte keeps every other byte. */
  lemma {:induction false} RemoveByteKeeps(s: Bytes, c: byte)
    ensures forall d :: d != c ==> (d in RemoveByte(s, c) <==> d in s)
    decreases |s|
  {
    if s != [] {
      RemoveByteKeeps(s[1..], c);
      assert s == [s[0]] + s[1..];
    }
  }

  /** str_replace() of one byte by nothing is RemoveByte. */
  lemma {:induction false} ReplaceByte(s: Bytes, c: byte)
    ensures Replace(s, [c], []) == RemoveByte(s, c)
    decreases |s|
  {
    if s != [] {
      ReplaceByte(s[1..], c);
      assert s[1..] == s[|[c]|..];
    }
  }

  // --------------------------------------------------- other PHP built-ins

  /** The bytes rtrim() strips by default. */
  predicate IsTrimmed(c: byte)
  {
    c == ' ' || c == '\t' || c == '\n' || c == '\r' || c == '\0' || c == '\U{0b}'
  }

  /** rtrim($s) with the default character list. */
  function RTrim(s: Bytes): (r: Bytes)
    ensures r <= s
    ensures r == [] || !IsTrimmed(r[|r| - 1])
    ensures forall i :: |r| <= i < |s| ==> IsTrimmed(s[i])
  {
    if s == [] || !IsTrimmed(s[|s| - 1]) then s else RTrim(s[..|s| - 1])
  }

  /** rtrim($s, $c) for one byte c. */
  function RTrimByte(s: Bytes, c: byte): (r: Bytes)
    ensures r <= s
    ensures r == [] || r[|r| - 1] != c
    ensures forall i :: |r| <= i < |s| ==> s[i] == c
  {
    if s == [] || s[|s| - 1] != c then s else RTrimByte(s[..|s| - 1], c)
  }

  /** explode($sep, $s) for a one-byte separator. */
  function Explode(sep: byte, s: Bytes): (parts: seq<Bytes>)
    ensures |parts| >= 1
    ensures forall k :: 0 <= k < |parts| ==> sep !in parts[k]
  {
    if s == [] then [[]]
    else
      var rest := Explode(sep, s[1..]);
      if s[0] == sep then [[]] + rest else [[s[0]] + rest[0]] + rest[1..]
  }

  /** Joining the pieces of explode() with the separator gives back the string. */
  function Join(sep: byte, parts: seq<Bytes>): Bytes
    requires |parts| >= 1
  {
    if |parts| == 1 then parts[0] else parts[0] + [sep] + Join(sep, parts[1..])
  }

  lemma {:induction false} ExplodeJoin(sep: byte, s: Bytes)
    ensures Join(sep, Explode(sep, s)) == s
    decreases |s|
  {
    if s != [] {
      var rest := Explode(sep, s[1..]);
      ExplodeJoin(sep, s[1..]);
      if s[0] == sep {
        assert Explode(sep, s) == [[]] + rest;
        assert ([[]] + rest)[1..] == rest;
      } else {
        var parts := [[s[0]] + rest[0]] + rest[1..];
        assert Explode(sep, s) == parts;
        if |rest| == 1 {
          assert parts == [[s[0]] + rest[0]];
        } else {
          assert parts[1..] == rest[1..];
          assert Join(sep, rest) == rest[0] + [sep] + Join(sep, rest[1..]);
        }
      }
    }
  }

  lemma SnocCancel<T>(a: seq<T>, b: seq<T>, e: T)
    requires a + [e] == b + [e]
    ensures a == b
  {
    assert a == (a + [e])[..|a|];
  }

  lemma Assoc<T>(a: seq<T>, b: seq<T>, c: seq<T>)
    ensures a + b + c == a + (b + c)
  {
  }

  /** A string without the separator explodes into itself alone. */
  lemma {:induction false} ExplodeWhole(sep: byte, a: Bytes)
    requires sep !in a
    ensures Explode(sep, a) == [a]
    decreases |a|
  {
    if a != [] {
      ExplodeWhole(sep, a[1..]);
      assert [a[0]] + a[1..] == a;
    }
  }

  /** The piece before the first separator comes out first. */
  lemma {:induction false} ExplodeCons(sep: byte, a: Bytes, b: Bytes)
    requires sep !in a
    ensures Explode(sep, a + [sep] + b) == [a] + Explode(sep, b)
    decreases |a|
  {
    var s := a + [sep] + b;
    if a == [] {
      assert s[1..] == b;
    } else {
      assert s[1..] == a[1..] + [sep] + b;
      ExplodeCons(sep, a[1..], b);
      assert [a[0]] + a[1..] == a;
    }
  }

  /** A trailing separator adds one empty piece. */
  lemma {:induction false} ExplodeSnoc(sep: byte, a: Bytes)
    ensures Explode(sep, a + [sep]) == Explode(sep, a) + [[]]
    decreases |a|
  {
    if a != [] {
      assert (a + [sep])[1..] == a[1..] + [sep];
      ExplodeSnoc(sep, a[1..]);
    }
  }

  function HexDigitValue(c: byte): int
  {
    if '0' <= c <= '9' then c as int - '0' as int
    else if 'a' <= c <= 'f' then c as int - 'a' as int + 10
    else if 'A' <= c <= 'F' then c as int - 'A' as int + 10
    else -1
  }

  /** hexdec(): the value of the hexadecimal digits of s, other bytes being ignored. */
  function HexDec(s: Bytes): (r: nat)
  {
    if s == [] then 0
    else
      var d := HexDigitValue(s[|s| - 1]);
      if d < 0 then HexDec(s[..|s| - 1]) else HexDec(s[..|s| - 1]) * 16 + d
  }

  /** A string of at most two hexadecimal digits names a byte. */
  lemma {:induction false} HexDecTwoDigits(s: Bytes)
    requires |s| <= 2
    ensures HexDec(s) < 256
  {
    if s != [] {
      HexDecTwoDigits(s[..|s| - 1]);
      if |s| == 2 {
        var p := s[..1];
        assert p[..0] == [];
        assert HexDec(p) < 16;
      }
    }
  }

  /** The value of the longest prefix of decimal digits of s. */
  function LeadingDigits(s: Bytes): (r: Bytes)
    ensures r <= s && AllDigits(r)
    ensures r == s || !IsDigit(s[|r|])
  {
    if s == [] || !IsDigit(s[0]) then [] else [s[0]] + LeadingDigits(s[1..])
  }

  /** (int)$s: leading blanks, an optional sign and the decimal digits that follow. */
  function IntVal(s: Bytes): int
    decreases |s|
  {
    if s != [] && (s[0] == ' ' || s[0] == '\t' || s[0] == '\n' || s[0] == '\r') then IntVal(s[1..])
    else if s != [] && s[0] == '-' then -(DigitsValue(LeadingDigits(s[1..])) as int)
    else if s != [] && s[0] == '+' then DigitsValue(LeadingDigits(s[1..]))
    else DigitsValue(LeadingDigits(s))
  }

  /** PHP round(): to the nearest integer, halves away from zero. */
  function Round(x: real): (r: int)
    ensures x - 0.5 <= r as real <= x + 0.5
    ensures x >= 0.0 ==> r >= 0
    ensures (r as real - x == 0.5) ==> x >= 0.0
    ensures (x - r as real == 0.5) ==> x < 0.0
  {
    if x >= 0.0 then (x + 0.5).Floor else -((-x + 0.5).Floor)
  }

  // ------------------------------------------------------ ordered arrays

  /** The position of key in an ordered PHP array held as (key, value)
      pairs (the last pair with that key). */
  function Find<V>(table: seq<(Bytes, V)>, key: Bytes): (r: Option<nat>)
    ensures r.Some? ==> r.value < |table| && table[r.value].0 == key
    ensures r.None? ==> forall t :: 0 <= t < |table| ==> table[t].0 != key
    decreases |table|
  {
    if table == [] then None
    else if table[|table| - 1].0 == key then Some(|table| - 1)
    else Find(table[..|table| - 1], key)
  }

  /** Tables with the same keys in the same order find every key at the
      same position, whatever their values. */
  lemma {:induction false} FindSameKeys<V, W>(a: seq<(Bytes, V)>, b: seq<(Bytes, W)>, key: Bytes)
    requires |a| == |b| && forall t :: 0 <= t < |a| ==> a[t].0 == b[t].0
    ensures Find(a, key) == Find(b, key)
    decreases |a|
  {
    if a != [] && a[|a| - 1].0 != key {
      FindSameKeys(a[..|a| - 1], b[..|b| - 1], key);
    }
  }

  /** No key occurs twice, as in a PHP array. */
  ghost predicate KeysDistinct<V>(table: seq<(Bytes, V)>)
  {
    forall a, b :: 0 <= a < b < |table| ==> table[a].0 != table[b].0
  }

  /** With distinct keys the position of a key is the only one holding it. */
  lemma FindUnique<V>(table: seq<(Bytes, V)>, t: nat)
    requires KeysDistinct(table) && t < |table|
    ensures Find(table, table[t].0) == Some(t)
  {
    var r := Find(table, table[t].0);
  }

  /** $a[$key] = $v: the value under an existing key is replaced where it
      stands, a new key goes at the end. */
  function Put<V>(table: seq<(Bytes, V)>, key: Bytes, v: V): (r: seq<(Bytes, V)>)
    ensures |table| <= |r| <= |table| + 1
    ensures forall t :: 0 <= t < |table| ==> r[t].0 == table[t].0
    ensures Find(r, key).Some? && r[Find(r, key).value] == (key, v)
    ensures forall t :: 0 <= t < |table| && t != Find(r, key).value ==> r[t] == table[t]
  {
    var p := Find(table, key);
    if p.Some? then
      var r := table[p.value := (key, v)];
      FindSameKeys(table, r, key);
      r
    else
      FindKeeps(table, key, v);
      table + [(key, v)]
  }

  /** Putting keeps the keys distinct and makes key find its new value. */
  lemma PutKeeps<V>(table: seq<(Bytes, V)>, key: Bytes, v: V)
    requires KeysDistinct(table)
    ensures KeysDistinct(Put(table, key, v))
    ensures var r := Put(table, key, v); Find(r, key).Some? && r[Find(r, key).value] == (key, v)
    ensures forall t :: 0 <= t < |table| ==> Put(table, key, v)[t].0 == table[t].0
  {
    var r := Put(table, key, v);
    var p := Find(table, key);
    if p.Some? {
      FindUnique(r, p.value);
    } else {
      FindUnique(r, |table|);
    }
  }

  /** Appending a pair leaves every other key where it was found. */
  lemma FindKeeps<V>(table: seq<(Bytes, V)>, key: Bytes, v: V)
    ensures Find(table + [(key, v)], key) == Some(|table|)
    ensures forall other :: other != key ==> Find(table + [(key, v)], other) == Find(table, other)
  {
    assert (table + [(key, v)])[..|table|] == table;
  }

  /** The pieces written one after the other. */
  function Flatten<T>(ps: seq<seq<T>>): seq<T>
  {
    if ps == [] then [] else Flatten(ps[..|ps| - 1]) + ps[|ps| - 1]
  }

  /** Element j of piece t comes after all the pieces before it. */
  lemma {:induction false} FlattenAt<T>(ps: seq<seq<T>>, t: nat, j: nat)
    requires t < |ps| && j < |ps[t]|
    ensures |Flatten(ps[..t])| + j < |Flatten(ps)|
    ensures Flatten(ps)[|Flatten(ps[..t])| + j] == ps[t][j]
    decreases |ps|
  {
    var m := |ps| - 1;
    if t < m {
      FlattenAt(ps[..m], t, j);
      assert ps[..m][..t] == ps[..t];
    } else {
      assert ps[..m] == ps[..t];
    }
  }
}
