/** The record of a partition log and the abstract log it is appended to. */
module Records {

  type byte = x: int | 0 <= x < 256

  const TWO_32: int := 0x1_0000_0000
  const TWO_63: int := 0x8000_0000_0000_0000
  const TWO_64: int := 0x1_0000_0000_0000_0000

  /** One message. Key and value are the bytes of the two Go strings. */
  datatype Record = Record(offset: nat, key: seq<byte>, value: seq<byte>, tsNano: int)

  /** The records the Go struct and the 32-bit length fields of a frame can hold. */
  predicate Fits(r: Record) {
    && r.offset < TWO_64
    && |r.key| < TWO_32
    && |r.value| < TWO_32
    && -TWO_63 <= r.tsNano < TWO_63
  }

  predicate AllFit(recs: seq<Record>) {
    forall i :: 0 <= i < |recs| ==> Fits(recs[i])
  }

  /** A log without holes: the record at position i carries offset i. */
  predicate Dense(log: seq<Record>) {
    forall i :: 0 <= i < |log| ==> log[i].offset == i
  }

  /** Contiguous offsets from base on. */
  predicate Contiguous(base: nat, recs: seq<Record>) {
    forall i :: 0 <= i < |recs| ==> recs[i].offset == base + i
  }

  /** What the idempotent append of a dense log does with an offered record:
      a present offset is accepted and ignored, the next one is appended, a gap is refused. */
  predicate Takes(log: seq<Record>, r: Record) {
    r.offset <= |log|
  }

  function Offer(log: seq<Record>, r: Record): (log': seq<Record>)
    ensures log <= log'
    ensures Dense(log) ==> Dense(log')
    ensures Takes(log, r) <==> r.offset < |log'|
  {
    if r.offset == |log| then log + [r] else log
  }

  /** One of the two logs is a prefix of the other. */
  predicate Comparable(a: seq<Record>, b: seq<Record>) {
    a <= b || b <= a
  }

  lemma ComparableAgree(a: seq<Record>, b: seq<Record>)
    ensures Comparable(a, b) <==> forall k :: 0 <= k < |a| && k < |b| ==> a[k] == b[k]
  {
  }
}
