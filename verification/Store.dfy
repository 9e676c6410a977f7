/** The two LMDB stores. `Live` holds in-flight state and is rewritten in place; an `Epoch` holds
    history and is only ever written with NO_OVERWRITE. */
module Store {
  import opened Common
  import opened Connection

  const PENDING := 0
  const MATCHED := 1
  const TIMEOUT := 2
  const UNMATCHED := 3
  const RST_ABORT := 4
  const ABORTED_RESOURCE := 5

  /** A QR_PAIR row: one request and the answer it got. */
  datatype QrPair = QrPair(
    status: nat, connHash: nat, qTs: nat, rTs: nat, latencyMs: nat, qLen: nat, rLen: nat,
    absSeq: nat, absEnd: nat, pseudo: nat,
    qIdx: seq<nat>, rIdx: seq<nat>, reqKey: seq<byte>, respKey: seq<byte>)

  /** QR_PENDING key; the incarnation is a physical prefix, so an older generation is out of reach. */
  datatype PendKey = PendKey(h: nat, inc: nat, end: nat)
  datatype PendVal = PendVal(q: nat, qTs: nat, qLen: nat)
  datatype TtlKey = TtlKey(qTs: nat, h: nat)
  datatype TtlVal = TtlVal(q: nat, end: nat)

  datatype Live = Live(
    conn: map<nat, ConnState>,
    pair: map<nat, QrPair>,
    pending: map<PendKey, PendVal>,
    ttl: map<TtlKey, TtlVal>)

  datatype Summary = Summary(
    proto: nat, flags: nat, srcIp: nat, dstIp: nat, srcPort: nat, dstPort: nat, len: nat)

  /** A key of an epoch store; the constructor is the DBI. */
  datatype EKey =
    | KPair(q: nat)
    | KConnQr(h: nat, qTs: nat, q: nat)
    | KQrKey(keyHash: nat, qTs: nat, q: nat)
    | KQrTime(qTs: nat, q: nat)
    | KPacket(idx: nat)
    | KRecord(ts: nat, idx: nat)

  datatype EVal = VPair(row: QrPair) | VIdx(q: nat) | VRecord(summary: Summary)

  type Epoch = map<EKey, EVal>

  /** The pair of write transactions of one batch. */
  datatype Txns = Txns(live: Live, epoch: Epoch)

  /** `put_no_overwrite`. */
  function PutNew<K, V>(m: map<K, V>, k: K, v: V): (r: map<K, V>)
    ensures Sub(m, r) && k in r
    ensures k !in m ==> r[k] == v
    ensures r.Keys == m.Keys + {k}
  {
    if k in m then m else m[k := v]
  }

  /** `m` is part of `n`: every row of `m` is in `n`, unchanged. */
  ghost predicate Sub<K, V>(m: map<K, V>, n: map<K, V>) {
    forall k :: k in m ==> k in n && n[k] == m[k]
  }

  lemma SubAntisymmetric<K, V>(m: map<K, V>, n: map<K, V>)
    requires Sub(m, n) && Sub(n, m)
    ensures m == n
  {
    assert m.Keys == n.Keys;
  }

  /** Rows of QR_PENDING that belong to one connection, over all incarnations. */
  ghost function PendingOf(pending: map<PendKey, PendVal>, h: nat): set<PendKey> {
    set k | k in pending && k.h == h
  }
}
