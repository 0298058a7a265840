/** Stand-ins for the C library routines the program leans on: the view of a
    NUL-terminated buffer that strlen and strstr take, strstr as substring
    containment, and atoi. */
module CLib {

  const NUL: char := '\0'

  /** The C string a buffer holds: everything before its first NUL. */
  function CStr(s: seq<char>): (r: seq<char>)
    ensures NUL !in r
    ensures r <= s
    ensures |r| < |s| ==> s[|r|] == NUL
  {
    if s == [] || s[0] == NUL then [] else [s[0]] + CStr(s[1..])
  }

  /** A buffer that holds a string without a NUL, then a NUL, holds exactly that string. */
  lemma {:induction false} CStrAppend(a: seq<char>, b: seq<char>)
    requires NUL !in a
    ensures CStr(a + b) == a + CStr(b)
  {
    if a != [] {
      assert a[0] in a;
      assert (a + b)[1..] == a[1..] + b;
      assert CStr(a + b) == [a[0]] + CStr(a[1..] + b);
      CStrAppend(a[1..], b);
      assert a == [a[0]] + a[1..];
    } else {
      assert a + b == b;
    }
  }

  lemma CStrOfTerminated(s: seq<char>)
    requires NUL !in s
    ensures CStr(s + [NUL]) == s
  {
    CStrAppend(s, [NUL]);
  }

  /** Whatever follows the first NUL is invisible to strlen and strstr. */
  lemma {:induction false} CStrStopsAtNul(a: seq<char>, b: seq<char>)
    ensures CStr(a + [NUL] + b) == CStr(a)
  {
    if a != [] && a[0] != NUL {
      assert (a + [NUL] + b)[1..] == a[1..] + [NUL] + b;
      CStrStopsAtNul(a[1..], b);
    }
  }

  predicate StartsWith(s: seq<char>, p: seq<char>)
  {
    |p| <= |s| && s[..|p|] == p
  }

  /** strstr(s, p) != NULL: p is found somewhere in s, trying offsets left to right. */
  predicate Contains(s: seq<char>, p: seq<char>)
    decreases |s|
  {
    StartsWith(s, p) || (s != [] && Contains(s[1..], p))
  }

  /** Reference definition of an occurrence of p at offset k of s. */
  ghost predicate OccursAt(s: seq<char>, p: seq<char>, k: int)
  {
    0 <= k && k + |p| <= |s| && s[k..k + |p|] == p
  }

  /** Reference definition of "p occurs in s". */
  ghost predicate Occurs(s: seq<char>, p: seq<char>)
  {
    exists k :: OccursAt(s, p, k)
  }

  lemma {:induction false} ContainsIffOccurs(s: seq<char>, p: seq<char>)
    ensures Contains(s, p) <==> Occurs(s, p)
  {
    if StartsWith(s, p) {
      assert OccursAt(s, p, 0);
    } else if s == [] {
      assert forall k :: !OccursAt(s, p, k);
    } else {
      ContainsIffOccurs(s[1..], p);
      if Contains(s[1..], p) {
        var k :| OccursAt(s[1..], p, k);
        TailOccurrence(s, p, k);
        assert OccursAt(s, p, k + 1);
      }
      if Occurs(s, p) {
        var k :| OccursAt(s, p, k);
        assert k != 0;
        TailOccurrence(s, p, k - 1);
        assert OccursAt(s[1..], p, k - 1);
      }
    }
  }

  /** An occurrence in the tail of s at k is one in s at k + 1, and back. */
  lemma TailOccurrence(s: seq<char>, p: seq<char>, k: nat)
    requires s != []
    ensures OccursAt(s[1..], p, k) <==> OccursAt(s, p, k + 1)
  {
    if k + |p| <= |s| - 1 {
      assert s[1..][k..k + |p|] == s[k + 1..k + 1 + |p|];
    }
  }

  /** A marker written out in full inside a string is found there. */
  lemma ContainsInside(a: seq<char>, p: seq<char>, b: seq<char>)
    ensures Contains(a + p + b, p)
  {
    assert (a + p + b)[|a|..|a| + |p|] == p;
    assert OccursAt(a + p + b, p, |a|);
    ContainsIffOccurs(a + p + b, p);
  }

  // realloc and memcpy

  /** A successful realloc(block, n) to a larger size: a new block of n bytes
      that starts with the bytes of the old one. */
  method Realloc(block: array<char>, n: nat) returns (ptr: array<char>)
    requires block.Length <= n
    ensures fresh(ptr) && ptr.Length == n
    ensures ptr[..block.Length] == block[..]
  {
    ptr := new char[n];
    var j := 0;
    while j < block.Length
      invariant 0 <= j <= block.Length
      invariant ptr[..j] == block[..j]
    {
      ptr[j] := block[j];
      j := j + 1;
    }
  }

  /** memcpy(&dst[offset], src, |src|), or a loop that copies src into dst
      from offset on, one index at a time. */
  method MemCpy(dst: array<char>, offset: nat, src: seq<char>)
    requires offset + |src| <= dst.Length
    modifies dst
    ensures dst[..offset] == old(dst[..offset])
    ensures dst[offset..offset + |src|] == src
    ensures dst[offset + |src|..] == old(dst[offset + |src|..])
  {
    var k := 0;
    while k < |src|
      invariant 0 <= k <= |src|
      invariant dst[..offset] == old(dst[..offset])
      invariant dst[offset..offset + k] == src[..k]
      invariant dst[offset + |src|..] == old(dst[offset + |src|..])
    {
      dst[offset + k] := src[k];
      k := k + 1;
    }
  }

  // atoi

  predicate IsSpace(c: char)
  {
    c == ' ' || '\t' <= c <= '\r'
  }

  predicate IsDigit(c: char)
  {
    '0' <= c <= '9'
  }

  predicate AllDigits(s: seq<char>)
  {
    forall i :: 0 <= i < |s| ==> IsDigit(s[i])
  }

  /** What is left of s once its leading white space is skipped. */
  function SkipSpaces(s: seq<char>): seq<char>
  {
    if s != [] && IsSpace(s[0]) then SkipSpaces(s[1..]) else s
  }

  /** The longest run of decimal digits at the start of s. */
  function LeadingDigits(s: seq<char>): (r: seq<char>)
    ensures AllDigits(r)
  {
    if s != [] && IsDigit(s[0]) then [s[0]] + LeadingDigits(s[1..]) else []
  }

  function DigitsValue(d: seq<char>): nat
    requires AllDigits(d)
  {
    if d == [] then 0 else 10 * DigitsValue(d[..|d| - 1]) + (d[|d| - 1] as int - '0' as int)
  }

  /** atoi: optional white space, an optional sign, then the longest run of
      digits; text that does not start that way gives 0. The C routine's
      behaviour on overflow is undefined; here the value is unbounded. */
  function Atoi(s: seq<char>): int
    decreases |s|
  {
    if s != [] && IsSpace(s[0]) then Atoi(s[1..])
    else if s != [] && s[0] == '-' then -(DigitsValue(LeadingDigits(s[1..])) as int)
    else if s != [] && s[0] == '+' then DigitsValue(LeadingDigits(s[1..]))
    else DigitsValue(LeadingDigits(s))
  }

  /** Leading white space does not change the value. */
  lemma {:induction false} AtoiSkipsSpaces(s: seq<char>)
    ensures Atoi(s) == Atoi(SkipSpaces(s))
    decreases |s|
  {
    if s != [] && IsSpace(s[0]) {
      AtoiSkipsSpaces(s[1..]);
    }
  }

  /** Text with no digit after the optional spaces and sign reads as 0. */
  lemma AtoiNonNumeric(s: seq<char>)
    requires var t := SkipSpaces(s);
             var u := if t != [] && (t[0] == '-' || t[0] == '+') then t[1..] else t;
             u == [] || !IsDigit(u[0])
    ensures Atoi(s) == 0
  {
    AtoiSkipsSpaces(s);
  }

  /** The decimal rendering of n, as printf's %d writes it. */
  function Decimal(n: nat): (r: seq<char>)
    ensures r != [] && AllDigits(r)
  {
    var c := ('0' as int + n % 10) as char;
    if n < 10 then [c] else Decimal(n / 10) + [c]
  }

  lemma {:induction false} DigitsValueDecimal(n: nat)
    ensures DigitsValue(Decimal(n)) == n
  {
    var d := Decimal(n);
    if n >= 10 {
      assert d[..|d| - 1] == Decimal(n / 10);
      DigitsValueDecimal(n / 10);
    }
  }

  lemma LeadingDigitsOfDigits(s: seq<char>)
    requires AllDigits(s)
    ensures LeadingDigits(s) == s
  {
  }

  /** Reading back a number printed with %d gives the number. */
  lemma AtoiDecimal(n: nat)
    ensures Atoi(Decimal(n)) == n
  {
    var d := Decimal(n);
    LeadingDigitsOfDigits(d);
    DigitsValueDecimal(n);
  }
}
