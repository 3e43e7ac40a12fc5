/** Partial completion of requests, block/blk-core.c: blk_update_request and req_bio_endio. */
module CompletionModel {
  const EIO: int := 5
  const SECTOR: nat := 512

  datatype Vec = Vec(page: nat, offset: nat, len: nat)

  /** A bio with its vectors from bi_idx on. */
  datatype Bio = Bio(id: nat, sector: nat, size: nat, vecs: seq<Vec>, uptodate: bool)

  datatype Req = Req(bios: seq<Bio>, dataLen: int, sector: nat, fs: bool, flushSeq: bool)

  /** A call of bio_endio. */
  datatype Ended = Ended(id: nat, error: int)

  /** The request after blk_update_request, the bios it ended, and what it returned. */
  datatype Outcome = Outcome(req: Req, log: seq<Ended>, more: bool)

  /** The error req_bio_endio passes on: an earlier error on the bio is not forgotten. */
  function PassedOn(b: Bio, error: int): int {
    if error == 0 && !b.uptodate then -EIO else error
  }

  /** The vectors left once `n` bytes of them are done. */
  function VecsAfter(vecs: seq<Vec>, n: nat): seq<Vec> {
    if n == 0 || vecs == [] then vecs
    else if vecs[0].len > n then [Vec(vecs[0].page, vecs[0].offset + n, vecs[0].len - n)] + vecs[1..]
    else VecsAfter(vecs[1..], n - vecs[0].len)
  }

  /** A bio of which the first `n` bytes are done. */
  function BioAfter(b: Bio, error: int, n: nat): Bio
    requires n <= b.size
  {
    if n == 0 || b.vecs == [] then b
    else Bio(b.id, b.sector + n / SECTOR, b.size - n, VecsAfter(b.vecs, n), b.uptodate && error == 0)
  }

  /** How many bios the loop completes; it stops as soon as no byte is left. */
  function Whole(bios: seq<Bio>, n: nat): (k: nat)
    ensures k <= |bios|
  {
    if bios == [] || n < bios[0].size then 0
    else if n == bios[0].size then 1
    else 1 + Whole(bios[1..], n - bios[0].size)
  }

  function SizeSum(bios: seq<Bio>): nat {
    if bios == [] then 0 else bios[0].size + SizeSum(bios[1..])
  }

  /** The calls of bio_endio for bios that are done; a flush sequence ends its bio by itself. */
  function Ends(r: Req, bios: seq<Bio>, error: int): seq<Ended> {
    if r.flushSeq || bios == [] then [] else [Ended(bios[0].id, PassedOn(bios[0], error))] + Ends(r, bios[1..], error)
  }

  /** blk_rq_cur_bytes. */
  function CurBytes(b: Bio): nat {
    if b.vecs == [] then b.size else b.vecs[0].len
  }

  /** What is left for the first bio that is not completed is at most its size. */
  lemma {:induction false} WholeFits(bios: seq<Bio>, n: nat)
    ensures var k := Whole(bios, n);
            SizeSum(bios[..k]) <= n && (k < |bios| ==> n - SizeSum(bios[..k]) <= bios[k].size)
  {
    if bios != [] && n > bios[0].size {
      WholeFits(bios[1..], n - bios[0].size);
      var k := Whole(bios[1..], n - bios[0].size);
      assert bios[..k + 1][1..] == bios[1..][..k];
    } else if bios != [] && n == bios[0].size {
      assert bios[..1][1..] == [];
    }
  }

  /** blk_update_request. */
  function Updated(r: Req, error: int, n: nat): Outcome {
    if r.bios == [] then Outcome(r, [], false)
    else
      var k := Whole(r.bios, n);
      var ends := Ends(r, r.bios[..k], error);
      if k == |r.bios| then Outcome(r.(bios := [], dataLen := 0), ends, false)
      else
        WholeFits(r.bios, n);
        var spent := SizeSum(r.bios[..k]);
        var b := BioAfter(r.bios[k], error, n - spent);
        var total := if r.bios[k].vecs == [] then spent else n;
        var len := r.dataLen - total;
        Outcome(Req([b] + r.bios[k + 1..], if len < CurBytes(b) then CurBytes(b) else len,
                    if r.fs then r.sector + total / SECTOR else r.sector, r.fs, r.flushSeq), ends, true)
  }
}
