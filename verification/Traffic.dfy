/** Byte counts and table rows, as every NetMeter table stores them. */
module Traffic {

  datatype Option<+T> = None | Some(value: T)

  /** Received and sent bytes. */
  datatype Flow = Flow(rx: int, tx: int) {

    function Total(): int {
      rx + tx
    }
  }

  const NO_FLOW := Flow(0, 0)

  /** All bytes of a row, and the part of them that stayed on the LAN. */
  datatype Bytes = Bytes(all: Flow, lan: Flow) {

    function Total(): int {
      all.Total()
    }

    /** The WAN part is what the LAN leaves of the total, clamped at zero. */
    function WanRx(): int {
      if all.rx - lan.rx > 0 then all.rx - lan.rx else 0
    }

    function WanTx(): int {
      if all.tx - lan.tx > 0 then all.tx - lan.tx else 0
    }

    function Wan(): int {
      WanRx() + WanTx()
    }

    /** TOTAL = LAN + WAN holds without the help of the clamp. */
    predicate Sound() {
      0 <= lan.rx <= all.rx && 0 <= lan.tx <= all.tx
    }
  }

  /** The four columns of a row. */
  datatype Column = Rx | Tx | LanRx | LanTx

  function Cell(b: Bytes, c: Column): int {
    match c
    case Rx => b.all.rx
    case Tx => b.all.tx
    case LanRx => b.lan.rx
    case LanTx => b.lan.tx
  }

  /** The primary key (timestamp or bucket start, interface) of every table. */
  datatype Key = Key(ts: int, iface: string)

  datatype Row = Row(ts: int, iface: string, bytes: Bytes) {
    function Id(): Key {
      Key(ts, iface)
    }
  }
}
