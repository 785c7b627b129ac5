/** The internal register file: names, reset values, masks and effects (ioregs.rs). */
module IoRegisters {
  import opened Basics
  import opened SerialUnits

  const IO_REGISTER_COUNT: nat := 64
  const CNTLA0: nat := 0x00
  const CNTLB0: nat := 0x02
  const STAT0: nat := 0x04
  const STAT1: nat := 0x05
  const TDR0: nat := 0x06
  const RDR0: nat := 0x08
  const CNTR: nat := 0x0a
  const TRD: nat := 0x0b
  const TMDR0L: nat := 0x0c
  const TMDR0H: nat := 0x0d
  const RLDR0L: nat := 0x0e
  const RLDR0H: nat := 0x0f
  const TCR: nat := 0x10
  const ASEXT0: nat := 0x12
  const TMDR1L: nat := 0x14
  const TMDR1H: nat := 0x15
  const RLDR1L: nat := 0x16
  const RLDR1H: nat := 0x17
  const FRC: nat := 0x18
  const ASTC0L: nat := 0x1a
  const ASTC0H: nat := 0x1b
  const SAR0L: nat := 0x20
  const DAR0L: nat := 0x23
  const BCR0L: nat := 0x26
  const BCR0H: nat := 0x27
  const MAR1L: nat := 0x28
  const IAR1L: nat := 0x2b
  const IAR1H: nat := 0x2c
  const BCR1L: nat := 0x2e
  const BCR1H: nat := 0x2f
  const DSTAT: nat := 0x30
  const DMODE: nat := 0x31
  const DCNTL: nat := 0x32
  const ITC: nat := 0x34
  const CBR: nat := 0x38
  const BBR: nat := 0x39
  const CBAR: nat := 0x3a
  const ICR: nat := 0x3f

  datatype ReadEffect = AsciCntlb | AsciRdr | AsciStat | CsioTrd | Plain | ReadTcr | TmdrHigh | TmdrLow

  datatype WriteEffect =
    | WriteAsext | WriteCntla | WriteCntlb | WriteStat | WriteTdr | WriteCntr | WriteTrd | Store
    | WriteDstat | WriteItc | WriteIcr | WriteMmu | WriteRdr | WriteTcr | WriteTmdr

  /** `is_available`. */
  predicate Available(variant: Variant, index: nat) {
    if index in {0x11, 0x19, 0x35, 0x37, 0x3b, 0x3c, 0x3d} then false
    else if index in {0x12, 0x13, 0x1a, 0x1b, 0x1c, 0x1d, 0x1e, 0x1f, 0x2d} then variant == Z8S180
    else index < IO_REGISTER_COUNT
  }

  function ResetValue(index: nat): byte {
    match index
    case 0x00 => 0x10
    case 0x02 | 0x03 => 0x07
    case 0x04 | 0x05 => 0x02
    case 0x0a => 0x07
    case 0x0c | 0x0d | 0x0e | 0x0f | 0x14 | 0x15 | 0x16 | 0x17 | 0x18 => 0xff
    case 0x1e => 0x7f
    case 0x30 => 0x30
    case 0x32 => 0xf0
    case 0x34 => 0x01
    case 0x36 => 0xc0
    case 0x3a => 0xf0
    case 0x3e => 0xe0
    case _ => 0
  }

  function ReadMask(index: nat): byte {
    match index
    case 0x0a => 0xf7
    case 0x11 | 0x19 | 0x35 | 0x37 | 0x3b | 0x3c | 0x3d => 0
    case 0x13 => 0x9f
    case 0x22 | 0x25 | 0x2a => 0x0f
    case 0x2d => 0xcf
    case 0x30 => 0xfd
    case 0x31 => 0x3e
    case 0x33 => 0xe0
    case 0x34 => 0xc7
    case 0x36 => 0xc3
    case 0x3e => 0xa0
    case 0x3f => 0xe0
    case _ => 0xff
  }

  function WriteMask(index: nat): byte {
    match index
    case 0x04 => 0x09
    case 0x05 => 0x0d
    case 0x0a => 0x77
    case 0x10 => 0x3f
    case 0x11 | 0x18 | 0x19 | 0x35 | 0x37 | 0x3b | 0x3c | 0x3d => 0
    case 0x12 => 0xfd
    case 0x13 => 0x9d
    case 0x1e => 0x80
    case 0x22 | 0x25 | 0x2a => 0x0f
    case 0x2d => 0xcf
    case 0x30 => 0xfc
    case 0x31 => 0x3e
    case 0x33 => 0xe0
    case 0x34 => 0x87
    case 0x36 => 0xc3
    case 0x3e | 0x3f => 0xe0
    case _ => 0xff
  }

  function ReadEffectOf(index: nat): ReadEffect {
    match index
    case 0x02 | 0x03 => AsciCntlb
    case 0x04 | 0x05 => AsciStat
    case 0x08 | 0x09 => AsciRdr
    case 0x0b => CsioTrd
    case 0x0c | 0x14 => TmdrLow
    case 0x0d | 0x15 => TmdrHigh
    case 0x10 => ReadTcr
    case _ => Plain
  }

  function WriteEffectOf(index: nat): WriteEffect {
    match index
    case 0x00 | 0x01 => WriteCntla
    case 0x02 | 0x03 => WriteCntlb
    case 0x04 | 0x05 => WriteStat
    case 0x06 | 0x07 => WriteTdr
    case 0x08 | 0x09 => WriteRdr
    case 0x0a => WriteCntr
    case 0x0b => WriteTrd
    case 0x0c | 0x0d | 0x14 | 0x15 => WriteTmdr
    case 0x10 => WriteTcr
    case 0x12 | 0x13 => WriteAsext
    case 0x30 => WriteDstat
    case 0x34 => WriteItc
    case 0x38 | 0x39 | 0x3a => WriteMmu
    case 0x3f => WriteIcr
    case _ => Store
  }
}
