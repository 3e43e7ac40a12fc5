/** Splitting a discard into bios, block/blk-lib.c: blkdev_issue_discard. */
module Discard {
  const UINT_MAX: nat := 0xffff_ffff
  const ENXIO: int := 6
  const EIO: int := 5
  const ENOMEM: int := 12
  const EOPNOTSUPP: int := 95

  /** What the queue supports; sizes and alignment in bytes, the limit on one bio in sectors. */
  datatype Limits = Limits(discard: bool, secure: bool, granularity: nat, alignment: nat, maxSectors: nat)

  /** A discard bio. */
  datatype Piece = Piece(sector: nat, sectors: nat)

  function Granularity(l: Limits): (g: nat)
    ensures g > 0
  {
    if l.granularity / 512 > 1 then l.granularity / 512 else 1
  }

  function Alignment(l: Limits): (a: nat)
    ensures a < Granularity(l)
  {
    l.alignment / 512 % Granularity(l)
  }

  /** The most sectors in a bio: a multiple of the granularity, and few enough to count their bytes in 32 bits. */
  function MaxSectors(l: Limits): nat {
    var most := if l.maxSectors < UINT_MAX / 512 then l.maxSectors else UINT_MAX / 512;
    most / Granularity(l) * Granularity(l)
  }

  /** The end of the next bio, for `n` sectors from `sector` on. */
  function NextEnd(sector: nat, n: nat, max: nat, g: nat, a: nat): int
    requires g > 0
  {
    var end := sector + if n < max then n else max;
    if end < sector + n && end % g != a then (end - a) / g * g + a else end
  }

  lemma MulLe(a: int, b: int, d: nat)
    requires a <= b
    ensures a * d <= b * d
  {
  }

  /** Rounding down to a sector that is `a` past a multiple of `g`. */
  lemma RoundDown(end: int, g: nat, a: nat)
    requires a < g
    ensures var r := (end - a) / g * g + a;
            r <= end < r + g && r % g == a && forall x :: r < x <= end ==> x % g != a
  {
    var k, r := (end - a) / g, (end - a) / g * g + a;
    assert end - a == k * g + (end - a) % g;
    ResidueOf(k, g, a);
    forall x | r < x <= end ensures x % g != a {
      if x % g == a {
        Between(x, k, g, a);
      }
    }
  }

  lemma Between(x: int, k: int, g: nat, a: nat)
    requires a < g && x % g == a && k * g + a < x
    ensures x >= k * g + a + g
  {
    var m := x / g;
    assert x == m * g + a && (k + 1) * g == k * g + g;
    if m <= k {
      MulLe(m, k, g);
    } else {
      MulLe(k + 1, m, g);
    }
  }

  lemma ResidueOf(k: int, g: nat, a: nat)
    requires a < g
    ensures (k * g + a) % g == a
  {
    var x := k * g + a;
    assert x == x / g * g + x % g;
    assert (x / g + 1) * g == x / g * g + g && (k + 1) * g == k * g + g;
    if x / g < k {
      MulLe(x / g + 1, k, g);
    } else if x / g > k {
      MulLe(k + 1, x / g, g);
    }
  }

  lemma MaxIsMultiple(l: Limits)
    ensures MaxSectors(l) % Granularity(l) == 0 && MaxSectors(l) * 512 <= UINT_MAX
    ensures MaxSectors(l) > 0 ==> MaxSectors(l) >= Granularity(l)
  {
    var g, most := Granularity(l), if l.maxSectors < UINT_MAX / 512 then l.maxSectors else UINT_MAX / 512;
    ResidueOf(most / g, g, 0);
    assert most == most / g * g + most % g;
    if most / g > 0 {
      MulLe(1, most / g, g);
    }
  }

  lemma Remainder(x: nat, g: nat)
    requires g > 0
    ensures (x - x % g) % g == 0
  {
    assert x - x % g == x / g * g + 0;
    ResidueOf(x / g, g, 0);
  }

  lemma NoLargerMultiple(most: nat, g: nat, m: nat)
    requires g > 0 && m % g == 0 && m <= most
    ensures m <= most / g * g <= most
  {
    assert most == most / g * g + most % g;
    if m > most / g * g {
      Between(m, most / g, g, 0);
    }
  }

  /**
   What the limits come to in sectors: the granularity rounded down, at least 1; the alignment rounded down, within the
   granularity; and the largest multiple of the granularity that the limit on a bio allows and whose bytes 32 bits hold.
   */
  lemma LimitsInSectors(l: Limits)
    ensures var g, a, max := Granularity(l), Alignment(l), MaxSectors(l);
            && (g * 512 <= l.granularity < (g + 1) * 512 || (g == 1 && l.granularity < 512))
            && a < g && (l.alignment / 512 - a) % g == 0
            && max % g == 0 && max <= l.maxSectors && max * 512 <= UINT_MAX
            && forall m: nat :: m % g == 0 && m <= l.maxSectors && m * 512 <= UINT_MAX ==> m <= max
  {
    MaxIsMultiple(l);
    Remainder(l.alignment / 512, Granularity(l));
    forall m: nat | m % Granularity(l) == 0 && m <= l.maxSectors && m * 512 <= UINT_MAX ensures m <= MaxSectors(l) {
      NoLargerMultiple(if l.maxSectors < UINT_MAX / 512 then l.maxSectors else UINT_MAX / 512, Granularity(l), m);
    }
    NoLargerMultiple(if l.maxSectors < UINT_MAX / 512 then l.maxSectors else UINT_MAX / 512, Granularity(l), 0);
  }

  /** The next bio is not empty and not too long, and if not the last it ends at the last aligned sector it can. */
  lemma NextEndOk(l: Limits, sector: nat, n: nat)
    requires MaxSectors(l) > 0 && n > 0
    ensures var max, g, a := MaxSectors(l), Granularity(l), Alignment(l); var end := NextEnd(sector, n, max, g, a);
            && sector < end <= sector + n && end - sector <= max
            && (end < sector + n ==> end % g == a && n > max && forall x :: end < x <= sector + max ==> x % g != a)
  {
    var max, g, a := MaxSectors(l), Granularity(l), Alignment(l);
    MaxIsMultiple(l);
    if n > max && (sector + max) % g != a {
      RoundDown(sector + max, g, a);
    }
  }

  /** The bios for `n` sectors from `sector` on. */
  function Split(l: Limits, sector: nat, n: nat): seq<Piece>
    requires MaxSectors(l) > 0
    decreases n
  {
    if n == 0 then []
    else
      NextEndOk(l, sector, n);
      var end := NextEnd(sector, n, MaxSectors(l), Granularity(l), Alignment(l));
      [Piece(sector, end - sector)] + Split(l, end, n - (end - sector))
  }

  // ---------------------------------------------------------------- what the bios are

  /** Pieces one behind the other, from `from` to `to`. */
  ghost predicate Tiles(pieces: seq<Piece>, from: nat, to: nat) {
    if pieces == [] then from == to
    else pieces[0].sector == from && pieces[0].sectors > 0 && Tiles(pieces[1..], from + pieces[0].sectors, to)
  }

  /** The bios cover the sectors in order, without gap or overlap, and end. */
  lemma {:induction false} SplitTiles(l: Limits, sector: nat, n: nat)
    requires MaxSectors(l) > 0
    ensures Tiles(Split(l, sector, n), sector, sector + n)
    decreases n
  {
    if n > 0 {
      NextEndOk(l, sector, n);
      var end := NextEnd(sector, n, MaxSectors(l), Granularity(l), Alignment(l));
      SplitTiles(l, end, n - (end - sector));
      assert Split(l, sector, n)[1..] == Split(l, end, n - (end - sector));
    }
  }

  /** No bio is longer than the limit, and every inner end is the last aligned sector within reach. */
  lemma {:induction false} SplitAligned(l: Limits, sector: nat, n: nat, i: nat)
    requires MaxSectors(l) > 0 && i < |Split(l, sector, n)|
    ensures var p := Split(l, sector, n)[i]; var end := p.sector + p.sectors;
            && 0 < p.sectors <= MaxSectors(l) && p.sectors * 512 <= UINT_MAX
            && (i + 1 < |Split(l, sector, n)| ==>
                  && end % Granularity(l) == Alignment(l)
                  && forall x :: end < x <= p.sector + MaxSectors(l) ==> x % Granularity(l) != Alignment(l))
    decreases n
  {
    NextEndOk(l, sector, n);
    MaxIsMultiple(l);
    var end := NextEnd(sector, n, MaxSectors(l), Granularity(l), Alignment(l));
    var rest := Split(l, end, n - (end - sector));
    assert Split(l, sector, n) == [Piece(sector, end - sector)] + rest;
    if i > 0 {
      SplitAligned(l, end, n - (end - sector), i - 1);
    }
  }

  /** Adding a multiple of the granularity keeps the alignment. */
  lemma StaysAligned(s: nat, max: nat, g: nat)
    requires g > 0 && max % g == 0
    ensures (s + max) % g == s % g
  {
    var k, m := s / g, max / g;
    assert s + max == (k + m) * g + s % g;
    ResidueOf(k + m, g, s % g);
  }

  /** Between the first and the last one every bio is as long as the limit allows. */
  lemma {:induction false} InnerAreFull(l: Limits, sector: nat, n: nat, i: nat)
    requires MaxSectors(l) > 0 && i + 1 < |Split(l, sector, n)| && (i > 0 || sector % Granularity(l) == Alignment(l))
    ensures Split(l, sector, n)[i].sectors == MaxSectors(l)
    decreases n
  {
    NextEndOk(l, sector, n);
    MaxIsMultiple(l);
    var max := MaxSectors(l);
    var end := NextEnd(sector, n, max, Granularity(l), Alignment(l));
    var rest := Split(l, end, n - (end - sector));
    assert Split(l, sector, n) == [Piece(sector, end - sector)] + rest;
    if i > 0 {
      InnerAreFull(l, end, n - (end - sector), i - 1);
    } else {
      StaysAligned(sector, max, Granularity(l));
    }
  }

  // ---------------------------------------------------------------- the loop

  lemma SplitNext(l: Limits, sector: nat, n: nat, end: nat)
    requires MaxSectors(l) > 0 && n > 0 && end == NextEnd(sector, n, MaxSectors(l), Granularity(l), Alignment(l))
    ensures sector < end <= sector + n
    ensures Split(l, sector, n) == [Piece(sector, end - sector)] + Split(l, end, n - (end - sector))
  {
    NextEndOk(l, sector, n);
  }

  /** How far the next bio goes. */
  method NextBio(l: Limits, sector: nat, n: nat, max: nat, granularity: nat, alignment: nat)
    returns (reqSects: nat, end: nat)
    requires max == MaxSectors(l) > 0 && granularity == Granularity(l) && alignment == Alignment(l) && n > 0
    ensures end == NextEnd(sector, n, max, granularity, alignment) && sector < end <= sector + n
    ensures reqSects == end - sector
  {
    NextEndOk(l, sector, n);
    reqSects := if n < max then n else max;
    end := sector + reqSects;
    if reqSects < n && end % granularity != alignment {
      var e := (end - alignment) / granularity * granularity + alignment;
      end := e;
      reqSects := end - sector;
    }
  }

  /**
   blkdev_issue_discard. `allocs` counts the bios that can be allocated before one cannot, `failed` says that a bio has
   come back with an error other than EOPNOTSUPP. The bios submitted are those of the whole split, or its beginning
   when an allocation fails.
   */
  method IssueDiscard(queue: bool, l: Limits, sector0: nat, n0: nat, secure: bool, allocs: nat, failed: bool)
    returns (ret: int, bios: seq<Piece>)
    ensures !queue ==> ret == -ENXIO && bios == []
    ensures queue && (!l.discard || MaxSectors(l) == 0 || (secure && !l.secure)) ==> ret == -EOPNOTSUPP && bios == []
    ensures queue && l.discard && MaxSectors(l) > 0 && (!secure || l.secure) ==>
              var all := Split(l, sector0, n0);
              && bios == all[..if allocs < |all| then allocs else |all|]
              && ret == (if failed then -EIO else if allocs < |all| then -ENOMEM else 0)
  {
    bios := [];
    if !queue {
      return -ENXIO, bios;
    }
    if !l.discard {
      return -EOPNOTSUPP, bios;
    }
    var granularity, alignment, max := Granularity(l), Alignment(l), MaxSectors(l);
    if max == 0 {
      return -EOPNOTSUPP, bios;
    }
    if secure && !l.secure {
      return -EOPNOTSUPP, bios;
    }
    ret := 0;
    var sector, n := sector0, n0;
    while n > 0
      invariant bios + Split(l, sector, n) == Split(l, sector0, n0) && |bios| <= allocs && ret == 0
      decreases n
    {
      if |bios| == allocs {
        ret := -ENOMEM;
        break;
      }
      var reqSects, end := NextBio(l, sector, n, max, granularity, alignment);
      SplitNext(l, sector, n, end);
      bios := bios + [Piece(sector, reqSects)];
      n := n - reqSects;
      sector := end;
    }
    assert bios == Split(l, sector0, n0)[..|bios|];
    if failed {
      ret := -EIO;
    }
  }
}
