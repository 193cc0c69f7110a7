/** The attribute records of the GATT client: discovered services, includes and characteristics. */
module Attributes {
  import opened Widths

  datatype Option<+T> = None | Some(value: T)

  type Bytes16 = b: seq<u8> | |b| == 16 witness [0, 0, 0, 0, 0, 0, 0, 0, 0, 0, 0, 0, 0, 0, 0, 0]

  datatype Uuid = Short(v: u16) | Long(b: Bytes16)

  const PRIMARY16: u8 := 1
  const PRIMARY128: u8 := 2
  const SECONDARY16: u8 := 3
  const SECONDARY128: u8 := 4
  const INCLUDE16: u8 := 5
  const INCLUDE128: u8 := 6
  const CHAR16: u8 := 7
  const CHAR128: u8 := 8
  const CCCD_DESC: u8 := 9

  datatype Hdr = Hdr(attrType: u8, inst: u8, handle: u16)

  datatype Srv = Srv(hdr: Hdr, endGroup: u16, uuid: Uuid)

  datatype Inc = Inc(hdr: Hdr, first: u16, last: u16, uuid: Uuid)

  datatype Char = Char(hdr: Hdr, props: u16, value: u16, uuid: Uuid, last: u16)

  predicate Srv16(t: u8) { t == PRIMARY16 || t == SECONDARY16 }

  predicate Srv128(t: u8) { t == PRIMARY128 || t == SECONDARY128 }

  predicate IsPrimary(s: Srv) { s.hdr.attrType == PRIMARY16 || s.hdr.attrType == PRIMARY128 }

  predicate IsSecondary(s: Srv) { s.hdr.attrType == SECONDARY16 || s.hdr.attrType == SECONDARY128 }

  /** The record's type byte and the width of its UUID agree. */
  predicate TypedSrv(s: Srv) {
    if s.uuid.Short? then Srv16(s.hdr.attrType) else Srv128(s.hdr.attrType)
  }

  predicate TypedInc(i: Inc) {
    i.hdr.attrType == if i.uuid.Short? then INCLUDE16 else INCLUDE128
  }

  predicate TypedChar(c: Char) {
    c.hdr.attrType == if c.uuid.Short? then CHAR16 else CHAR128
  }

  /** A characteristic under discovery: its declaration, its CCCD (all zero if none was reported) and
      the highest descriptor handle reported for it. */
  datatype DisChar = DisChar(ch: Char, cccd: Hdr, descEnd: u16)

  /** A service under discovery.  The four counters are kept beside the two queues. */
  datatype DisSrv = DisSrv(
    srv: Srv,
    spec: Option<nat>,
    inc16Num: u8, inc128Num: u8, char16Num: u8, char128Num: u8,
    incs: seq<Inc>,
    chars: seq<DisChar>,
    cursor: u16)

  /** Position of the first registered client with this UUID. */
  function FindSpec(registered: seq<Uuid>, u: Uuid): (r: Option<nat>)
    ensures r.Some? ==> r.value < |registered| && registered[r.value] == u
    ensures r.None? <==> u !in registered
  {
    if registered == [] then None
    else if registered[0] == u then Some(0)
    else
      match FindSpec(registered[1..], u)
      case None => None
      case Some(k) => Some(k + 1)
  }
}
