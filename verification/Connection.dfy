/** Connection hot state: its fields and its direction bits. */
module Connection {

  const SYN_SENT := 0
  const SYN_RCVD := 1
  const ESTABLISHED := 2
  const CLOSED := 3
  const RESET_STATE := 4
  const TIMEOUT_STATE := 5
  const HALF_OPEN_STATE := 6

  // Bits of `anomalyFlags`.
  const RESET := 0x2
  const HALF_OPEN := 0x4
  const QR_UNMATCHED := 0x8
  const SYN_SEEN := 0x10
  const FIN_SEEN := 0x20
  const RETRANS := 0x80
  const SEQ_GAP := 0x100

  datatype ConnState = ConnState(
    state: nat,
    clientIp: nat, clientPort: nat, serverIp: nat, serverPort: nat, proto: nat,
    firstTs: nat, lastTs: nat,
    synSeen: nat, synackSeen: nat, finSeen: nat, rstSeen: nat,
    reqCnt: nat, respCnt: nat, bytesC: nat, bytesS: nat, pktsC: nat, pktsS: nat,
    absSeqC: nat, absSeqS: nat, consumedAckC: nat, consumedAckS: nat,
    metaBindId: int, protocolHint: nat, anomalyFlags: nat, qrOpen: nat,
    lastRawC: nat, lastRawS: nat, incarnation: nat, dirFlags: nat, synPktIdx: nat)

  /** The default connection: every field zero. */
  const BLANK := ConnState(
    0, 0, 0, 0, 0, 0, 0, 0, 0, 0, 0, 0, 0, 0, 0, 0, 0, 0, 0, 0, 0, 0, 0, 0, 0, 0, 0, 0, 0, 0, 0)

  function ActiveC(st: ConnState): bool { st.dirFlags % 2 == 1 }

  function ActiveS(st: ConnState): bool { (st.dirFlags / 2) % 2 == 1 }

  /** `dir_flags` with bit `bit` forced to `on`; the other bits stay. */
  function ForceBit(flags: nat, bit: nat, on: bool): (r: nat)
    requires bit == 1 || bit == 2
    ensures (r / bit) % 2 == if on then 1 else 0
    ensures bit == 1 ==> r / 2 == flags / 2
    ensures bit == 2 ==> r % 2 == flags % 2 && r / 4 == flags / 4
    ensures flags < 256 ==> r < 256
  {
    if (flags / bit) % 2 == (if on then 1 else 0) then flags
    else if on then flags + bit
    else flags - bit
  }

  function SetActiveC(st: ConnState, on: bool): (r: ConnState)
    ensures ActiveC(r) == on && ActiveS(r) == ActiveS(st)
    ensures r == st.(dirFlags := r.dirFlags)
  {
    st.(dirFlags := ForceBit(st.dirFlags, 1, on))
  }

  function SetActiveS(st: ConnState, on: bool): (r: ConnState)
    ensures ActiveS(r) == on && ActiveC(r) == ActiveC(st)
    ensures r == st.(dirFlags := r.dirFlags)
  {
    st.(dirFlags := ForceBit(st.dirFlags, 2, on))
  }

  /** The state without its open-request counter, which the store recomputes on every write-back. */
  function Norm(st: ConnState): ConnState { st.(qrOpen := 0) }
}
