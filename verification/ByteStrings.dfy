/** Byte strings, fixed-width big-endian integers and length-tagged fields. */
module ByteStrings {

  type byte = x: int | 0 <= x < 0x100
  type u16 = x: int | 0 <= x < 0x1_0000
  type u32 = x: int | 0 <= x < 0x1_0000_0000
  type u64 = x: int | 0 <= x < 0x1_0000_0000_0000_0000
  type Bytes = seq<byte>

  datatype Option<+T> = None | Some(value: T)

  function Pow256(width: nat): (p: nat)
    ensures p > 0
  {
    if width == 0 then 1 else 256 * Pow256(width - 1)
  }

  /** The `width` low-order bytes of `n`, most significant first. Like a cast to a
      narrower integer, it drops what does not fit. */
  function BigEndian(n: nat, width: nat): (s: Bytes)
    ensures |s| == width
  {
    if width == 0 then [] else BigEndian(n / 256, width - 1) + [n % 256]
  }

  function FromBigEndian(s: Bytes): (n: nat)
    ensures n < Pow256(|s|)
  {
    if s == [] then 0 else FromBigEndian(s[..|s| - 1]) * 256 + s[|s| - 1]
  }

  lemma {:induction false} BigEndianRoundTrip(n: nat, width: nat)
    requires n < Pow256(width)
    ensures FromBigEndian(BigEndian(n, width)) == n
  {
    if width > 0 {
      BigEndianRoundTrip(n / 256, width - 1);
      var s := BigEndian(n, width);
      assert s[..|s| - 1] == BigEndian(n / 256, width - 1);
    }
  }

  lemma {:induction false} BigEndianOfBytes(s: Bytes)
    ensures BigEndian(FromBigEndian(s), |s|) == s
  {
    if s != [] {
      var front, last := s[..|s| - 1], s[|s| - 1];
      var n := FromBigEndian(s);
      BigEndianOfBytes(front);
      assert n / 256 == FromBigEndian(front) && n % 256 == last;
      calc {
        BigEndian(n, |s|);
        BigEndian(n / 256, |front|) + [n % 256];
        front + [last];
        s;
      }
    }
  }

  lemma ConcatAssociative<T>(a: seq<T>, b: seq<T>, c: seq<T>)
    ensures a + (b + c) == a + b + c
  {
  }

  lemma Widths()
    ensures Pow256(2) == 0x1_0000
    ensures Pow256(4) == 0x1_0000_0000
    ensures Pow256(8) == 0x1_0000_0000_0000_0000
  {
    assert Pow256(1) == 256 && Pow256(2) == 65536;
    assert Pow256(3) == 16777216 && Pow256(4) == 4294967296;
    assert Pow256(5) == 1099511627776 && Pow256(6) == 281474976710656;
  }

  lemma BigEndianInjective(m: nat, n: nat, width: nat)
    requires m < Pow256(width) && n < Pow256(width)
    requires BigEndian(m, width) == BigEndian(n, width)
    ensures m == n
  {
    BigEndianRoundTrip(m, width);
    BigEndianRoundTrip(n, width);
  }

  lemma SplitAt(a: Bytes, b: Bytes, x: Bytes, y: Bytes)
    requires |a| == |b| && a + x == b + y
    ensures a == b && x == y
  {
    assert a == (a + x)[..|a|] && b == (b + y)[..|b|];
    assert x == (a + x)[|a|..] && y == (b + y)[|b|..];
  }

  /** A field preceded by its length in `width` bytes. */
  function Tagged(width: nat, field: Bytes): (s: Bytes)
    ensures |s| == width + |field|
  {
    BigEndian(|field|, width) + field
  }

  /** A length-tagged field can be cut off the front of a byte string in one way only. */
  lemma TaggedUnique(width: nat, a: Bytes, b: Bytes, x: Bytes, y: Bytes)
    requires |a| < Pow256(width) && |b| < Pow256(width)
    requires Tagged(width, a) + x == Tagged(width, b) + y
    ensures a == b && x == y
  {
    assert Tagged(width, a) + x == BigEndian(|a|, width) + (a + x);
    assert Tagged(width, b) + y == BigEndian(|b|, width) + (b + y);
    SplitAt(BigEndian(|a|, width), BigEndian(|b|, width), a + x, b + y);
    BigEndianInjective(|a|, |b|, width);
    SplitAt(a, b, x, y);
  }

  /** Length-tagged fields, one after the other. */
  function TaggedAll(width: nat, fields: seq<Bytes>): Bytes {
    if fields == [] then [] else Tagged(width, fields[0]) + TaggedAll(width, fields[1..])
  }

  predicate AllFit(width: nat, fields: seq<Bytes>) {
    forall i | 0 <= i < |fields| :: |fields[i]| < Pow256(width)
  }

  /** A known number of fields can be cut off the front in one way only. */
  lemma {:induction false} TaggedAllUnique(width: nat, fs: seq<Bytes>, gs: seq<Bytes>, x: Bytes, y: Bytes)
    requires |fs| == |gs| && AllFit(width, fs) && AllFit(width, gs)
    requires TaggedAll(width, fs) + x == TaggedAll(width, gs) + y
    ensures fs == gs && x == y
  {
    if fs != [] {
      var restF, restG := TaggedAll(width, fs[1..]), TaggedAll(width, gs[1..]);
      assert TaggedAll(width, fs) + x == Tagged(width, fs[0]) + (restF + x);
      assert TaggedAll(width, gs) + y == Tagged(width, gs[0]) + (restG + y);
      TaggedUnique(width, fs[0], gs[0], restF + x, restG + y);
      TaggedAllUnique(width, fs[1..], gs[1..], x, y);
      assert fs == [fs[0]] + fs[1..] && gs == [gs[0]] + gs[1..];
    } else {
      assert [] + x == x && [] + y == y;
    }
  }

  /** A list of fields that runs to the end needs no count. */
  lemma {:induction false} TaggedListUnique(width: nat, fs: seq<Bytes>, gs: seq<Bytes>)
    requires width > 0 && AllFit(width, fs) && AllFit(width, gs)
    requires TaggedAll(width, fs) == TaggedAll(width, gs)
    ensures fs == gs
  {
    if fs != [] && gs != [] {
      TaggedUnique(width, fs[0], gs[0], TaggedAll(width, fs[1..]), TaggedAll(width, gs[1..]));
      TaggedListUnique(width, fs[1..], gs[1..]);
      assert fs == [fs[0]] + fs[1..] && gs == [gs[0]] + gs[1..];
    }
  }

  lemma {:induction false} TaggedAllSnoc(width: nat, fs: seq<Bytes>, f: Bytes)
    ensures TaggedAll(width, fs + [f]) == TaggedAll(width, fs) + Tagged(width, f)
  {
    if fs == [] {
      assert [f][1..] == [] && [] + [f] == [f];
      assert TaggedAll(width, [f]) == Tagged(width, f) + TaggedAll(width, []);
    } else {
      TaggedAllSnoc(width, fs[1..], f);
      assert (fs + [f])[1..] == fs[1..] + [f];
    }
  }

  /** Lexicographic order on byte strings. */
  predicate Less(a: Bytes, b: Bytes) {
    b != [] && (a == [] || a[0] < b[0] || (a[0] == b[0] && Less(a[1..], b[1..])))
  }

  lemma {:induction false} LessTotal(a: Bytes, b: Bytes)
    ensures a == b ==> !Less(a, b)
    ensures a != b ==> (Less(a, b) <==> !Less(b, a))
  {
    if a != [] && b != [] {
      LessTotal(a[1..], b[1..]);
      assert a == [a[0]] + a[1..] && b == [b[0]] + b[1..];
    }
  }
}
