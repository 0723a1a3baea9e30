/** The byte keys of the buckets: a cursor that moves in byte order meets numbers, times and index entries in their own order. */
module Keys {
  import opened ByteOrder
  import opened Totals
  import opened Queue
  import Dedupe

  const I63: int := 0x8000_0000_0000_0000

  function Power(width: nat): (p: nat)
    ensures p > 0
  {
    if width == 0 then 1 else 256 * Power(width - 1)
  }

  /** The low `width` bytes of n, most significant first. */
  function BigEndian(n: nat, width: nat): (s: string)
    ensures |s| == width
  {
    if width == 0 then "" else BigEndian(n / 256, width - 1) + [(n % 256) as char]
  }

  function Decoded(s: string): nat {
    if s == "" then 0 else 256 * Decoded(s[..|s| - 1]) + s[|s| - 1] as int
  }

  function NumberKey(n: nat): string { BigEndian(n, 8) }

  /** getUint: a value that is not 8 bytes long reads as 0. */
  function GetUint(s: string): nat { if |s| != 8 then 0 else Decoded(s) }

  lemma {:induction false} BigEndianDecodes(n: nat, width: nat)
    requires n < Power(width)
    ensures Decoded(BigEndian(n, width)) == n
  {
    if width > 0 {
      BigEndianDecodes(n / 256, width - 1);
      assert BigEndian(n, width)[..width - 1] == BigEndian(n / 256, width - 1);
    }
  }

  ghost predicate Bytes(s: string) { forall c <- s :: c as int < 256 }

  lemma {:induction false} DecodedEncodes(s: string)
    requires Bytes(s)
    ensures Decoded(s) < Power(|s|) && BigEndian(Decoded(s), |s|) == s
  {
    if s != "" {
      var front, last := s[..|s| - 1], s[|s| - 1];
      assert last in s && forall c <- front :: c in s;
      DecodedEncodes(front);
      assert s == front + [last];
    }
  }

  /** Appending a byte to texts of one length decides only between equal ones. */
  lemma {:induction false} LessAppend(a: string, b: string, x: string, y: string)
    requires |a| == |b|
    ensures Less(a + x, b + y) <==> Less(a, b) || (a == b && Less(x, y))
  {
    if a == "" {
      assert a + x == x && b + y == y;
    } else {
      assert (a + x)[1..] == a[1..] + x && (b + y)[1..] == b[1..] + y;
      assert a == [a[0]] + a[1..] && b == [b[0]] + b[1..];
      LessAppend(a[1..], b[1..], x, y);
    }
  }

  lemma {:induction false} BigEndianOrdered(n: nat, m: nat, width: nat)
    requires n < Power(width) && m < Power(width)
    ensures Less(BigEndian(n, width), BigEndian(m, width)) <==> n < m
    ensures BigEndian(n, width) == BigEndian(m, width) <==> n == m
  {
    BigEndianDecodes(n, width);
    BigEndianDecodes(m, width);
    if width > 0 {
      BigEndianOrdered(n / 256, m / 256, width - 1);
      var x, y := [(n % 256) as char], [(m % 256) as char];
      LessAppend(BigEndian(n / 256, width - 1), BigEndian(m / 256, width - 1), x, y);
    }
  }

  lemma WidthOfKeys()
    ensures Power(8) == U64
  {
  }

  lemma NumberKeyRoundTrip(n: nat, s: string)
    requires n < U64
    ensures GetUint(NumberKey(n)) == n
    ensures |s| == 8 && Bytes(s) ==> GetUint(s) < U64 && NumberKey(GetUint(s)) == s
  {
    WidthOfKeys();
    BigEndianDecodes(n, 8);
    if |s| == 8 && Bytes(s) {
      DecodedEncodes(s);
    }
  }

  /** Byte order on 8-byte keys is numeric order. */
  lemma NumberKeysOrdered(n: nat, m: nat)
    requires n < U64 && m < U64
    ensures Less(NumberKey(n), NumberKey(m)) <==> n < m
    ensures NumberKey(n) == NumberKey(m) <==> n == m
  {
    WidthOfKeys();
    BigEndianOrdered(n, m, 8);
  }

  /** So the first key of a bucket of sequences is the least sequence. */
  lemma FirstKeyIsLeast(k: nat, keys: set<nat>)
    requires k in keys && forall n <- keys :: n < U64
    ensures IsFirst(NumberKey(k), set n | n in keys :: NumberKey(n)) <==> IsLeast(k, keys)
  {
    var encoded := set n | n in keys :: NumberKey(n);
    forall n | n in keys ensures NumberKey(n) in encoded && (AtMost(NumberKey(k), NumberKey(n)) <==> k <= n) {
      NumberKeysOrdered(k, n);
    }
  }

  // ----- Times -----

  /** timeKey: the int64 of UnixNano, reinterpreted as an unsigned number. */
  function TimeKey(t: int): string { NumberKey(t % U64) }

  /** decodeTime of a key of at least 8 bytes. */
  function DecodeTime(s: string): int
    requires |s| >= 8
  {
    var n := Decoded(s[..8]);
    if n < I63 then n else n - U64
  }

  /** Byte order is time order exactly between times on the same side of 1970. */
  lemma TimeKeysOrderedIff(t: int, u: int)
    requires -I63 <= t < I63 && -I63 <= u < I63
    ensures (Less(TimeKey(t), TimeKey(u)) <==> t < u) <==> (t < 0) == (u < 0)
    ensures TimeKey(t) == TimeKey(u) <==> t == u
  {
    Wrapped(t);
    Wrapped(u);
    NumberKeysOrdered(t % U64, u % U64);
  }

  lemma Wrapped(t: int)
    requires -I63 <= t < I63
    ensures t % U64 == if t < 0 then t + U64 else t
  {
  }

  // ----- The expiry index -----

  /** dedupeIndexKey. */
  function IndexKey(e: Dedupe.Entry): string { TimeKey(e.expiry) + e.id }

  /** An index key gives back its expiry and its delivery, so no two entries share one. */
  lemma IndexKeyRoundTrip(e: Dedupe.Entry)
    requires e.expiry < I63
    ensures DecodeTime(IndexKey(e)) == e.expiry && IndexKey(e)[8..] == e.id
  {
    Wrapped(e.expiry);
    WidthOfKeys();
    BigEndianDecodes(e.expiry, 8);
    assert IndexKey(e)[..8] == TimeKey(e.expiry);
  }

  /** The cursor order of the index bucket is the order of expiry, then of delivery. */
  lemma IndexKeysOrdered(e: Dedupe.Entry, f: Dedupe.Entry)
    requires e.expiry < I63 && f.expiry < I63
    ensures Less(IndexKey(e), IndexKey(f)) <==> Dedupe.Before(e, f)
    ensures IndexKey(e) == IndexKey(f) <==> e == f
  {
    TimeKeysOrderedIff(e.expiry, f.expiry);
    LessAppend(TimeKey(e.expiry), TimeKey(f.expiry), e.id, f.id);
    IndexKeyRoundTrip(e);
    IndexKeyRoundTrip(f);
  }
}
