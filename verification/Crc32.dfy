/** `Crypto::ComputeCRC32`: a table, one byte at a time, against the division of the message, one bit at a time. */
module Crc32 {

  const POLYNOMIAL: bv32 := 0x04C11DB7
  const REFLECTED: bv32 := 0xEDB88320
  const START: bv32 := 0xFFFFFFFF

  const ROTATE_INPUT: bv8 := 1
  const ROTATE_OUTPUT: bv8 := 2

  // ---------------------------------------------------------------- reference: bit-serial division

  /** One bit of the message enters a register that shifts to the left. */
  function ShiftLeft(crc: bv32, bit: bool): bv32 {
    if (crc & 0x8000_0000 != 0) != bit then (crc << 1) ^ POLYNOMIAL else crc << 1
  }

  /** The same division in a register that shifts to the right, the polynomial reflected. */
  function ShiftRight(crc: bv32, bit: bool): bv32 {
    if (crc & 1 != 0) != bit then (crc >> 1) ^ REFLECTED else crc >> 1
  }

  function DivideLeft(crc: bv32, bits: seq<bool>): bv32
    decreases |bits|
  {
    if bits == [] then crc else DivideLeft(ShiftLeft(crc, bits[0]), bits[1..])
  }

  function DivideRight(crc: bv32, bits: seq<bool>): bv32
    decreases |bits|
  {
    if bits == [] then crc else DivideRight(ShiftRight(crc, bits[0]), bits[1..])
  }

  /** The bits of a byte, most significant first. */
  function HighFirst(b: bv8): seq<bool> {
    [b & 0x80 != 0, b & 0x40 != 0, b & 0x20 != 0, b & 0x10 != 0, b & 8 != 0, b & 4 != 0, b & 2 != 0, b & 1 != 0]
  }

  function LowFirst(b: bv8): seq<bool> {
    [b & 1 != 0, b & 2 != 0, b & 4 != 0, b & 8 != 0, b & 0x10 != 0, b & 0x20 != 0, b & 0x40 != 0, b & 0x80 != 0]
  }

  /** The bits of a message in the order in which they are divided. */
  function Bits(data: seq<bv8>, lowFirst: bool): seq<bool> {
    if data == [] then [] else
      var n := |data| - 1;
      Bits(data[..n], lowFirst) + if lowFirst then LowFirst(data[n]) else HighFirst(data[n])
  }

  // ---------------------------------------------------------------- the code

  /** `Rotate8`: the byte is promoted, masked, shifted and truncated. */
  function Rotate8(value: bv8): bv8 {
    var v := value as bv32;
    var pairs := (((v >> 1) & 0x5555) | ((v & 0x5555) << 1)) & 0xFF;
    var nibbles := (((pairs >> 2) & 0x3333) | ((pairs & 0x3333) << 2)) & 0xFF;
    (((nibbles >> 4) | (nibbles << 4)) & 0xFF) as bv8
  }

  function Rotate32(value: bv32): bv32 {
    var pairs := ((value >> 1) & 0x55555555) | ((value & 0x55555555) << 1);
    var nibbles := ((pairs >> 2) & 0x33333333) | ((pairs & 0x33333333) << 2);
    var bytes := ((nibbles >> 4) & 0x0F0F0F0F) | ((nibbles & 0x0F0F0F0F) << 4);
    var words := ((bytes >> 8) & 0x00FF00FF) | ((bytes & 0x00FF00FF) << 8);
    (words >> 16) | (words << 16)
  }

  function Row0(low: bv8): bv32 {
    if low == 0x0 then 0x00000000 else if low == 0x1 then 0x04c11db7 else if low == 0x2 then 0x09823b6e else if low == 0x3 then 0x0d4326d9 else
    if low == 0x4 then 0x130476dc else if low == 0x5 then 0x17c56b6b else if low == 0x6 then 0x1a864db2 else if low == 0x7 then 0x1e475005 else
    if low == 0x8 then 0x2608edb8 else if low == 0x9 then 0x22c9f00f else if low == 0xA then 0x2f8ad6d6 else if low == 0xB then 0x2b4bcb61 else
    if low == 0xC then 0x350c9b64 else if low == 0xD then 0x31cd86d3 else if low == 0xE then 0x3c8ea00a else 0x384fbdbd
  }

  function Row1(low: bv8): bv32 {
    if low == 0x0 then 0x4c11db70 else if low == 0x1 then 0x48d0c6c7 else if low == 0x2 then 0x4593e01e else if low == 0x3 then 0x4152fda9 else
    if low == 0x4 then 0x5f15adac else if low == 0x5 then 0x5bd4b01b else if low == 0x6 then 0x569796c2 else if low == 0x7 then 0x52568b75 else
    if low == 0x8 then 0x6a1936c8 else if low == 0x9 then 0x6ed82b7f else if low == 0xA then 0x639b0da6 else if low == 0xB then 0x675a1011 else
    if low == 0xC then 0x791d4014 else if low == 0xD then 0x7ddc5da3 else if low == 0xE then 0x709f7b7a else 0x745e66cd
  }

  function Row2(low: bv8): bv32 {
    if low == 0x0 then 0x9823b6e0 else if low == 0x1 then 0x9ce2ab57 else if low == 0x2 then 0x91a18d8e else if low == 0x3 then 0x95609039 else
    if low == 0x4 then 0x8b27c03c else if low == 0x5 then 0x8fe6dd8b else if low == 0x6 then 0x82a5fb52 else if low == 0x7 then 0x8664e6e5 else
    if low == 0x8 then 0xbe2b5b58 else if low == 0x9 then 0xbaea46ef else if low == 0xA then 0xb7a96036 else if low == 0xB then 0xb3687d81 else
    if low == 0xC then 0xad2f2d84 else if low == 0xD then 0xa9ee3033 else if low == 0xE then 0xa4ad16ea else 0xa06c0b5d
  }

  function Row3(low: bv8): bv32 {
    if low == 0x0 then 0xd4326d90 else if low == 0x1 then 0xd0f37027 else if low == 0x2 then 0xddb056fe else if low == 0x3 then 0xd9714b49 else
    if low == 0x4 then 0xc7361b4c else if low == 0x5 then 0xc3f706fb else if low == 0x6 then 0xceb42022 else if low == 0x7 then 0xca753d95 else
    if low == 0x8 then 0xf23a8028 else if low == 0x9 then 0xf6fb9d9f else if low == 0xA then 0xfbb8bb46 else if low == 0xB then 0xff79a6f1 else
    if low == 0xC then 0xe13ef6f4 else if low == 0xD then 0xe5ffeb43 else if low == 0xE then 0xe8bccd9a else 0xec7dd02d
  }

  function Row4(low: bv8): bv32 {
    if low == 0x0 then 0x34867077 else if low == 0x1 then 0x30476dc0 else if low == 0x2 then 0x3d044b19 else if low == 0x3 then 0x39c556ae else
    if low == 0x4 then 0x278206ab else if low == 0x5 then 0x23431b1c else if low == 0x6 then 0x2e003dc5 else if low == 0x7 then 0x2ac12072 else
    if low == 0x8 then 0x128e9dcf else if low == 0x9 then 0x164f8078 else if low == 0xA then 0x1b0ca6a1 else if low == 0xB then 0x1fcdbb16 else
    if low == 0xC then 0x018aeb13 else if low == 0xD then 0x054bf6a4 else if low == 0xE then 0x0808d07d else 0x0cc9cdca
  }

  function Row5(low: bv8): bv32 {
    if low == 0x0 then 0x7897ab07 else if low == 0x1 then 0x7c56b6b0 else if low == 0x2 then 0x71159069 else if low == 0x3 then 0x75d48dde else
    if low == 0x4 then 0x6b93dddb else if low == 0x5 then 0x6f52c06c else if low == 0x6 then 0x6211e6b5 else if low == 0x7 then 0x66d0fb02 else
    if low == 0x8 then 0x5e9f46bf else if low == 0x9 then 0x5a5e5b08 else if low == 0xA then 0x571d7dd1 else if low == 0xB then 0x53dc6066 else
    if low == 0xC then 0x4d9b3063 else if low == 0xD then 0x495a2dd4 else if low == 0xE then 0x44190b0d else 0x40d816ba
  }

  function Row6(low: bv8): bv32 {
    if low == 0x0 then 0xaca5c697 else if low == 0x1 then 0xa864db20 else if low == 0x2 then 0xa527fdf9 else if low == 0x3 then 0xa1e6e04e else
    if low == 0x4 then 0xbfa1b04b else if low == 0x5 then 0xbb60adfc else if low == 0x6 then 0xb6238b25 else if low == 0x7 then 0xb2e29692 else
    if low == 0x8 then 0x8aad2b2f else if low == 0x9 then 0x8e6c3698 else if low == 0xA then 0x832f1041 else if low == 0xB then 0x87ee0df6 else
    if low == 0xC then 0x99a95df3 else if low == 0xD then 0x9d684044 else if low == 0xE then 0x902b669d else 0x94ea7b2a
  }

  function Row7(low: bv8): bv32 {
    if low == 0x0 then 0xe0b41de7 else if low == 0x1 then 0xe4750050 else if low == 0x2 then 0xe9362689 else if low == 0x3 then 0xedf73b3e else
    if low == 0x4 then 0xf3b06b3b else if low == 0x5 then 0xf771768c else if low == 0x6 then 0xfa325055 else if low == 0x7 then 0xfef34de2 else
    if low == 0x8 then 0xc6bcf05f else if low == 0x9 then 0xc27dede8 else if low == 0xA then 0xcf3ecb31 else if low == 0xB then 0xcbffd686 else
    if low == 0xC then 0xd5b88683 else if low == 0xD then 0xd1799b34 else if low == 0xE then 0xdc3abded else 0xd8fba05a
  }

  function Row8(low: bv8): bv32 {
    if low == 0x0 then 0x690ce0ee else if low == 0x1 then 0x6dcdfd59 else if low == 0x2 then 0x608edb80 else if low == 0x3 then 0x644fc637 else
    if low == 0x4 then 0x7a089632 else if low == 0x5 then 0x7ec98b85 else if low == 0x6 then 0x738aad5c else if low == 0x7 then 0x774bb0eb else
    if low == 0x8 then 0x4f040d56 else if low == 0x9 then 0x4bc510e1 else if low == 0xA then 0x46863638 else if low == 0xB then 0x42472b8f else
    if low == 0xC then 0x5c007b8a else if low == 0xD then 0x58c1663d else if low == 0xE then 0x558240e4 else 0x51435d53
  }

  function Row9(low: bv8): bv32 {
    if low == 0x0 then 0x251d3b9e else if low == 0x1 then 0x21dc2629 else if low == 0x2 then 0x2c9f00f0 else if low == 0x3 then 0x285e1d47 else
    if low == 0x4 then 0x36194d42 else if low == 0x5 then 0x32d850f5 else if low == 0x6 then 0x3f9b762c else if low == 0x7 then 0x3b5a6b9b else
    if low == 0x8 then 0x0315d626 else if low == 0x9 then 0x07d4cb91 else if low == 0xA then 0x0a97ed48 else if low == 0xB then 0x0e56f0ff else
    if low == 0xC then 0x1011a0fa else if low == 0xD then 0x14d0bd4d else if low == 0xE then 0x19939b94 else 0x1d528623
  }

  function RowA(low: bv8): bv32 {
    if low == 0x0 then 0xf12f560e else if low == 0x1 then 0xf5ee4bb9 else if low == 0x2 then 0xf8ad6d60 else if low == 0x3 then 0xfc6c70d7 else
    if low == 0x4 then 0xe22b20d2 else if low == 0x5 then 0xe6ea3d65 else if low == 0x6 then 0xeba91bbc else if low == 0x7 then 0xef68060b else
    if low == 0x8 then 0xd727bbb6 else if low == 0x9 then 0xd3e6a601 else if low == 0xA then 0xdea580d8 else if low == 0xB then 0xda649d6f else
    if low == 0xC then 0xc423cd6a else if low == 0xD then 0xc0e2d0dd else if low == 0xE then 0xcda1f604 else 0xc960ebb3
  }

  function RowB(low: bv8): bv32 {
    if low == 0x0 then 0xbd3e8d7e else if low == 0x1 then 0xb9ff90c9 else if low == 0x2 then 0xb4bcb610 else if low == 0x3 then 0xb07daba7 else
    if low == 0x4 then 0xae3afba2 else if low == 0x5 then 0xaafbe615 else if low == 0x6 then 0xa7b8c0cc else if low == 0x7 then 0xa379dd7b else
    if low == 0x8 then 0x9b3660c6 else if low == 0x9 then 0x9ff77d71 else if low == 0xA then 0x92b45ba8 else if low == 0xB then 0x9675461f else
    if low == 0xC then 0x8832161a else if low == 0xD then 0x8cf30bad else if low == 0xE then 0x81b02d74 else 0x857130c3
  }

  function RowC(low: bv8): bv32 {
    if low == 0x0 then 0x5d8a9099 else if low == 0x1 then 0x594b8d2e else if low == 0x2 then 0x5408abf7 else if low == 0x3 then 0x50c9b640 else
    if low == 0x4 then 0x4e8ee645 else if low == 0x5 then 0x4a4ffbf2 else if low == 0x6 then 0x470cdd2b else if low == 0x7 then 0x43cdc09c else
    if low == 0x8 then 0x7b827d21 else if low == 0x9 then 0x7f436096 else if low == 0xA then 0x7200464f else if low == 0xB then 0x76c15bf8 else
    if low == 0xC then 0x68860bfd else if low == 0xD then 0x6c47164a else if low == 0xE then 0x61043093 else 0x65c52d24
  }

  function RowD(low: bv8): bv32 {
    if low == 0x0 then 0x119b4be9 else if low == 0x1 then 0x155a565e else if low == 0x2 then 0x18197087 else if low == 0x3 then 0x1cd86d30 else
    if low == 0x4 then 0x029f3d35 else if low == 0x5 then 0x065e2082 else if low == 0x6 then 0x0b1d065b else if low == 0x7 then 0x0fdc1bec else
    if low == 0x8 then 0x3793a651 else if low == 0x9 then 0x3352bbe6 else if low == 0xA then 0x3e119d3f else if low == 0xB then 0x3ad08088 else
    if low == 0xC then 0x2497d08d else if low == 0xD then 0x2056cd3a else if low == 0xE then 0x2d15ebe3 else 0x29d4f654
  }

  function RowE(low: bv8): bv32 {
    if low == 0x0 then 0xc5a92679 else if low == 0x1 then 0xc1683bce else if low == 0x2 then 0xcc2b1d17 else if low == 0x3 then 0xc8ea00a0 else
    if low == 0x4 then 0xd6ad50a5 else if low == 0x5 then 0xd26c4d12 else if low == 0x6 then 0xdf2f6bcb else if low == 0x7 then 0xdbee767c else
    if low == 0x8 then 0xe3a1cbc1 else if low == 0x9 then 0xe760d676 else if low == 0xA then 0xea23f0af else if low == 0xB then 0xeee2ed18 else
    if low == 0xC then 0xf0a5bd1d else if low == 0xD then 0xf464a0aa else if low == 0xE then 0xf9278673 else 0xfde69bc4
  }

  function RowF(low: bv8): bv32 {
    if low == 0x0 then 0x89b8fd09 else if low == 0x1 then 0x8d79e0be else if low == 0x2 then 0x803ac667 else if low == 0x3 then 0x84fbdbd0 else
    if low == 0x4 then 0x9abc8bd5 else if low == 0x5 then 0x9e7d9662 else if low == 0x6 then 0x933eb0bb else if low == 0x7 then 0x97ffad0c else
    if low == 0x8 then 0xafb010b1 else if low == 0x9 then 0xab710d06 else if low == 0xA then 0xa6322bdf else if low == 0xB then 0xa2f33668 else
    if low == 0xC then 0xbcb4666d else if low == 0xD then 0xb8757bda else if low == 0xE then 0xb5365d03 else 0xb1f740b4
  }

  /** `CRC32[index]`, row by row. */
  function Table(index: bv8): bv32 {
    var low := index & 0x0F;
    match index >> 4
    case 0 => Row0(low)
    case 1 => Row1(low)
    case 2 => Row2(low)
    case 3 => Row3(low)
    case 4 => Row4(low)
    case 5 => Row5(low)
    case 6 => Row6(low)
    case 7 => Row7(low)
    case 8 => Row8(low)
    case 9 => Row9(low)
    case 10 => RowA(low)
    case 11 => RowB(low)
    case 12 => RowC(low)
    case 13 => RowD(low)
    case 14 => RowE(low)
    case _ => RowF(low)
  }

  /** Eight steps of the division by an empty message. */
  function Eight(crc: bv32): bv32 {
    Empty(Empty(Empty(Empty(Empty(Empty(Empty(Empty(crc))))))))
  }

  function Empty(crc: bv32): bv32 { ShiftLeft(crc, false) }

  lemma Row0Divides(low: bv8)
    requires low < 16
    ensures Row0(low) == Eight(((0x00 | low) as bv32) << 24)
  {
  }

  lemma Row1Divides(low: bv8)
    requires low < 16
    ensures Row1(low) == Eight(((0x10 | low) as bv32) << 24)
  {
  }

  lemma Row2Divides(low: bv8)
    requires low < 16
    ensures Row2(low) == Eight(((0x20 | low) as bv32) << 24)
  {
  }

  lemma Row3Divides(low: bv8)
    requires low < 16
    ensures Row3(low) == Eight(((0x30 | low) as bv32) << 24)
  {
  }

  lemma Row4Divides(low: bv8)
    requires low < 16
    ensures Row4(low) == Eight(((0x40 | low) as bv32) << 24)
  {
  }

  lemma Row5Divides(low: bv8)
    requires low < 16
    ensures Row5(low) == Eight(((0x50 | low) as bv32) << 24)
  {
  }

  lemma Row6Divides(low: bv8)
    requires low < 16
    ensures Row6(low) == Eight(((0x60 | low) as bv32) << 24)
  {
  }

  lemma Row7Divides(low: bv8)
    requires low < 16
    ensures Row7(low) == Eight(((0x70 | low) as bv32) << 24)
  {
  }

  lemma Row8Divides(low: bv8)
    requires low < 16
    ensures Row8(low) == Eight(((0x80 | low) as bv32) << 24)
  {
  }

  lemma Row9Divides(low: bv8)
    requires low < 16
    ensures Row9(low) == Eight(((0x90 | low) as bv32) << 24)
  {
  }

  lemma RowADivides(low: bv8)
    requires low < 16
    ensures RowA(low) == Eight(((0xA0 | low) as bv32) << 24)
  {
  }

  lemma RowBDivides(low: bv8)
    requires low < 16
    ensures RowB(low) == Eight(((0xB0 | low) as bv32) << 24)
  {
  }

  lemma RowCDivides(low: bv8)
    requires low < 16
    ensures RowC(low) == Eight(((0xC0 | low) as bv32) << 24)
  {
  }

  lemma RowDDivides(low: bv8)
    requires low < 16
    ensures RowD(low) == Eight(((0xD0 | low) as bv32) << 24)
  {
  }

  lemma RowEDivides(low: bv8)
    requires low < 16
    ensures RowE(low) == Eight(((0xE0 | low) as bv32) << 24)
  {
  }

  lemma RowFDivides(low: bv8)
    requires low < 16
    ensures RowF(low) == Eight(((0xF0 | low) as bv32) << 24)
  {
  }

  /** Every entry of the table is eight steps of the division. */
  lemma TableDivides(index: bv8)
    ensures Table(index) == Eight(InTop(index))
  {
    hide Row0, Row1, Row2, Row3, Row4, Row5, Row6, Row7, Row8, Row9, RowA, RowB, RowC, RowD, RowE, RowF, Eight;
    var low := index & 0x0F;
    assert index == (index & 0xF0) | low;
    match index >> 4
    case 0 =>
      assert index & 0xF0 == 0x00;
      Row0Divides(low);
    case 1 =>
      assert index & 0xF0 == 0x10;
      Row1Divides(low);
    case 2 =>
      assert index & 0xF0 == 0x20;
      Row2Divides(low);
    case 3 =>
      assert index & 0xF0 == 0x30;
      Row3Divides(low);
    case 4 =>
      assert index & 0xF0 == 0x40;
      Row4Divides(low);
    case 5 =>
      assert index & 0xF0 == 0x50;
      Row5Divides(low);
    case 6 =>
      assert index & 0xF0 == 0x60;
      Row6Divides(low);
    case 7 =>
      assert index & 0xF0 == 0x70;
      Row7Divides(low);
    case 8 =>
      assert index & 0xF0 == 0x80;
      Row8Divides(low);
    case 9 =>
      assert index & 0xF0 == 0x90;
      Row9Divides(low);
    case 10 =>
      assert index & 0xF0 == 0xA0;
      RowADivides(low);
    case 11 =>
      assert index & 0xF0 == 0xB0;
      RowBDivides(low);
    case 12 =>
      assert index & 0xF0 == 0xC0;
      RowCDivides(low);
    case 13 =>
      assert index & 0xF0 == 0xD0;
      RowDDivides(low);
    case 14 =>
      assert index & 0xF0 == 0xE0;
      RowEDivides(low);
    case _ =>
      assert index & 0xF0 == 0xF0;
      RowFDivides(low);
  }

  lemma EmptyLinear(a: bv32, b: bv32)
    ensures Empty(Add(a, b)) == Add(Empty(a), Empty(b))
  {
    Shifts(a, false);
    Shifts(b, false);
    Shifts(Add(a, b), false);
    AddDoubles(a, b);
    var x, y := Double(a), Double(b);
    AddTops(a, b);
    AddThird(x, y, POLYNOMIAL);
    hide ShiftLeft, ShiftRight, Add, Double, Top;
  }

  lemma AddTops(a: bv32, b: bv32)
    ensures Top(Add(a, b)) == (Top(a) != Top(b))
  {
  }

  lemma AddDoubles(a: bv32, b: bv32)
    ensures Double(Add(a, b)) == Add(Double(a), Double(b))
  {
  }

  lemma AddOrder(x: bv32, y: bv32, z: bv32)
    ensures Add(Add(x, y), z) == Add(x, Add(y, z))
  {
  }

  lemma AddTwice(y: bv32, z: bv32)
    ensures Add(z, Add(y, z)) == y && Add(y, z) == Add(z, y)
  {
  }

  /** What adding a third register to either or to both of two others gives. */
  lemma AddThird(x: bv32, y: bv32, z: bv32)
    ensures Add(Add(x, y), z) == Add(Add(x, z), y) == Add(x, Add(y, z))
    ensures Add(Add(x, z), Add(y, z)) == Add(x, y)
  {
    hide Add;
    AddOrder(x, y, z);
    AddOrder(x, z, y);
    AddOrder(x, z, Add(y, z));
    AddTwice(y, z);
  }

  lemma Linear(a: bv32, b: bv32)
    ensures Eight(Add(a, b)) == Add(Eight(a), Eight(b))
  {
    hide Empty, Add;
    var a1, b1 := Empty(a), Empty(b);
    var a2, b2 := Empty(a1), Empty(b1);
    var a3, b3 := Empty(a2), Empty(b2);
    var a4, b4 := Empty(a3), Empty(b3);
    var a5, b5 := Empty(a4), Empty(b4);
    var a6, b6 := Empty(a5), Empty(b5);
    var a7, b7 := Empty(a6), Empty(b6);
    EmptyLinear(a, b);
    EmptyLinear(a1, b1);
    EmptyLinear(a2, b2);
    EmptyLinear(a3, b3);
    EmptyLinear(a4, b4);
    EmptyLinear(a5, b5);
    EmptyLinear(a6, b6);
    EmptyLinear(a7, b7);
  }

  lemma LowBitsShift(low: bv32)
    requires low < 0x100_0000
    ensures Eight(low) == low << 8
  {
  }

  /** The bits still to come may be added to the register at once. */
  lemma Absorb(crc: bv32, bits: bv32)
    ensures Empty(Add(crc, bits)) == Add(ShiftLeft(crc, Top(bits)), Double(bits))
  {
    Shifts(crc, Top(bits));
    Shifts(Add(crc, bits), false);
    AddDoubles(crc, bits);
    AddTops(crc, bits);
    AddThird(Double(crc), Double(bits), POLYNOMIAL);
    hide ShiftLeft, ShiftRight, Add, Double, Top;
  }

  function Add(a: bv32, b: bv32): bv32 { a ^ b }

  function Double(a: bv32): bv32 { a << 1 }

  function Top(a: bv32): bool { a & 0x8000_0000 != 0 }

  /** The first `n` bits of a register. */
  function TopBits(a: bv32, n: nat): seq<bool>
    decreases n
  {
    if n == 0 then [] else [Top(a)] + TopBits(Double(a), n - 1)
  }

  function Empties(crc: bv32, n: nat): bv32
    decreases n
  {
    if n == 0 then crc else Empties(Empty(crc), n - 1)
  }

  function Doubles(a: bv32, n: nat): bv32
    decreases n
  {
    if n == 0 then a else Doubles(Double(a), n - 1)
  }

  lemma {:induction false} AbsorbMany(crc: bv32, bits: bv32, n: nat)
    ensures Empties(Add(crc, bits), n) == Add(DivideLeft(crc, TopBits(bits, n)), Doubles(bits, n))
    decreases n
  {
    hide ShiftLeft, Empty, Add, Top, Double;
    if n > 0 {
      Absorb(crc, bits);
      AbsorbMany(ShiftLeft(crc, Top(bits)), Double(bits), n - 1);
      assert TopBits(bits, n)[1..] == TopBits(Double(bits), n - 1);
    }
  }

  function InTop(b: bv8): bv32 { (b as bv32) << 24 }

  lemma {:induction false} TopBitAt(a: bv32, n: nat, k: nat)
    requires k < n
    ensures |TopBits(a, n)| == n && TopBits(a, n)[k] == Top(Doubles(a, k))
    decreases n
  {
    hide Top, Double;
    if n > 1 {
      TopBitAt(Double(a), n - 1, if k == 0 then 0 else k - 1);
    }
  }

  lemma {:induction false} OneMore(a: bv32, n: nat)
    ensures Doubles(a, n + 1) == Double(Doubles(a, n))
    ensures Empties(a, n + 1) == Empty(Empties(a, n))
    decreases n
  {
    hide Double, Empty;
    if n > 0 {
      OneMore(Double(a), n - 1);
      OneMore(Empty(a), n - 1);
    }
  }

  lemma EightTimes(a: bv32)
    ensures Doubles(a, 0) == a && Doubles(a, 1) == Double(a) && Doubles(a, 2) == Double(Doubles(a, 1))
    ensures Doubles(a, 3) == Double(Doubles(a, 2)) && Doubles(a, 4) == Double(Doubles(a, 3))
    ensures Doubles(a, 5) == Double(Doubles(a, 4)) && Doubles(a, 6) == Double(Doubles(a, 5))
    ensures Doubles(a, 7) == Double(Doubles(a, 6)) && Doubles(a, 8) == Double(Doubles(a, 7))
    ensures Empties(a, 8) == Eight(a)
  {
    assert Doubles(a, 0) == a && Empties(a, 0) == a;
    hide Double, Empty, Doubles, Empties;
    OneMore(a, 0);
    OneMore(a, 1);
    OneMore(a, 2);
    OneMore(a, 3);
    OneMore(a, 4);
    OneMore(a, 5);
    OneMore(a, 6);
    OneMore(a, 7);
  }

  lemma BitsInTop(b: bv8)
    ensures TopBits(InTop(b), 8) == HighFirst(b)
    ensures Doubles(InTop(b), 8) == 0
  {
    hide Top, Double, InTop, HighFirst, Doubles, TopBits, Eight, Empties;
    var a := InTop(b);
    EightTimes(a);
    forall k: nat | k < 8
      ensures |TopBits(a, 8)| == 8 && TopBits(a, 8)[k] == Top(Doubles(a, k))
    {
      TopBitAt(a, 8, k);
    }
    BitByBit(b);
  }

  lemma BitByBit(b: bv8)
    ensures var a := InTop(b);
      var a1 := Double(a);
      var a2 := Double(a1);
      var a3 := Double(a2);
      var a4 := Double(a3);
      var a5 := Double(a4);
      var a6 := Double(a5);
      var a7 := Double(a6);
      HighFirst(b) == [Top(a), Top(a1), Top(a2), Top(a3), Top(a4), Top(a5), Top(a6), Top(a7)] && Double(a7) == 0
  {
  }

  lemma ByteStep(crc: bv32, b: bv8)
    ensures DivideLeft(crc, HighFirst(b)) == Eight(Add(crc, InTop(b)))
  {
    var divided := DivideLeft(crc, HighFirst(b));
    assert Add(divided, 0) == divided;
    hide Eight, Add, InTop, HighFirst;
    AbsorbMany(crc, InTop(b), 8);
    EightTimes(Add(crc, InTop(b)));
    BitsInTop(b);
  }

  /** What the code does with one byte. */
  function Advance(crc: bv32, b: bv8): bv32 {
    (crc << 8) ^ Table(((crc >> 24) as bv8) ^ b)
  }

  function Low(crc: bv32): bv32 { crc & 0x00FF_FFFF }

  lemma Split(crc: bv32, b: bv8)
    ensures Add(crc, InTop(b)) == Add(InTop(((crc >> 24) as bv8) ^ b), Low(crc))
    ensures Low(crc) << 8 == crc << 8
  {
  }

  lemma Advances(crc: bv32, b: bv8, found: bv32)
    requires found == Table(((crc >> 24) as bv8) ^ b)
    ensures Advance(crc, b) == Add(found, crc << 8)
  {
    hide Table;
  }

  /** One look-up is the division by the eight bits of the byte. */
  lemma LookUp(crc: bv32, b: bv8)
    ensures Advance(crc, b) == DivideLeft(crc, HighFirst(b))
  {
    var index := ((crc >> 24) as bv8) ^ b;
    hide Table, Eight, HighFirst, Advance, Empty;
    Split(crc, b);
    LowBitsShift(Low(crc));
    Advances(crc, b, Table(index));
    hide Add, InTop, Low;
    ByteStep(crc, b);
    Linear(InTop(index), Low(crc));
    TableDivides(index);
  }

  lemma {:induction false} DivideMore(crc: bv32, s: seq<bool>, t: seq<bool>)
    ensures DivideLeft(crc, s + t) == DivideLeft(DivideLeft(crc, s), t)
    decreases |s|
  {
    hide ShiftLeft;
    if s == [] {
      assert s + t == t;
    } else {
      assert (s + t)[1..] == s[1..] + t;
      DivideMore(ShiftLeft(crc, s[0]), s[1..], t);
    }
  }

  lemma RotateByte(b: bv8)
    ensures HighFirst(Rotate8(b)) == LowFirst(b)
  {
  }

  lemma RotateAdd(a: bv32, b: bv32)
    ensures Rotate32(Add(a, b)) == Add(Rotate32(a), Rotate32(b))
  {
  }

  function Half(a: bv32): bv32 { a >> 1 }

  function Last(a: bv32): bool { a & 1 != 0 }

  lemma RotateDouble(a: bv32)
    ensures Rotate32(Double(a)) == Half(Rotate32(a))
    ensures Top(a) == Last(Rotate32(a))
  {
  }

  lemma RotatePolynomial()
    ensures Rotate32(POLYNOMIAL) == REFLECTED
    ensures Rotate32(START) == START
  {
  }

  lemma Shifts(crc: bv32, bit: bool)
    ensures ShiftLeft(crc, bit) == if Top(crc) != bit then Add(Double(crc), POLYNOMIAL) else Double(crc)
    ensures ShiftRight(crc, bit) == if Last(crc) != bit then Add(Half(crc), REFLECTED) else Half(crc)
  {
  }

  lemma RotateStep(crc: bv32, bit: bool)
    ensures Rotate32(ShiftLeft(crc, bit)) == ShiftRight(Rotate32(crc), bit)
  {
    hide Rotate32, ShiftLeft, ShiftRight, Add, Double, Half, Last, Top;
    RotatePolynomial();
    Shifts(crc, bit);
    Shifts(Rotate32(crc), bit);
    RotateDouble(crc);
    RotateAdd(Double(crc), POLYNOMIAL);
  }

  /** The register that shifts to the left, read backwards, is the register that shifts to the right. */
  lemma {:induction false} RotateDivision(crc: bv32, bits: seq<bool>)
    ensures Rotate32(DivideLeft(crc, bits)) == DivideRight(Rotate32(crc), bits)
    decreases |bits|
  {
    hide ShiftLeft, ShiftRight, Rotate32;
    if bits != [] {
      RotateStep(crc, bits[0]);
      RotateDivision(ShiftLeft(crc, bits[0]), bits[1..]);
    }
  }

  /** With both options the result is the reflected CRC-32, without its final complement. */
  lemma ReflectedForm(data: seq<bv8>)
    ensures Rotate32(DivideLeft(START, Bits(data, true))) == DivideRight(START, Bits(data, true))
  {
    RotatePolynomial();
    RotateDivision(START, Bits(data, true));
  }

  /** `ComputeCRC32` */
  method ComputeCRC32(data: seq<bv8>, options: bv8) returns (r: bv32)
    ensures options & ROTATE_OUTPUT == 0 ==> r == DivideLeft(START, Bits(data, options & ROTATE_INPUT != 0))
    ensures options & ROTATE_OUTPUT != 0 ==> r == Rotate32(DivideLeft(START, Bits(data, options & ROTATE_INPUT != 0)))
    ensures options & ROTATE_OUTPUT != 0 && options & ROTATE_INPUT != 0 ==> r == DivideRight(START, Bits(data, true))
  {
    assert DivideLeft(START, []) == START;
    hide ShiftLeft, ShiftRight, Rotate8, Rotate32, Table, Advance, DivideLeft, DivideRight, HighFirst, LowFirst;
    var crc: bv32 := START;
    var i := 0;
    while i < |data|
      invariant i <= |data|
      invariant crc == DivideLeft(START, Bits(data[..i], options & ROTATE_INPUT != 0))
    {
      MoreBits(data, i, options & ROTATE_INPUT != 0);
      ghost var before := Bits(data[..i], options & ROTATE_INPUT != 0);
      if options & ROTATE_INPUT != 0 {
        LookUp(crc, Rotate8(data[i]));
        RotateByte(data[i]);
        DivideMore(START, before, LowFirst(data[i]));
        crc := Advance(crc, Rotate8(data[i]));
      } else {
        LookUp(crc, data[i]);
        DivideMore(START, before, HighFirst(data[i]));
        crc := Advance(crc, data[i]);
      }
      i := i + 1;
    }
    assert data[..|data|] == data;
    ReflectedForm(data);
    r := if options & ROTATE_OUTPUT != 0 then Rotate32(crc) else crc;
  }

  lemma MoreBits(data: seq<bv8>, i: nat, lowFirst: bool)
    requires i < |data|
    ensures Bits(data[..i + 1], lowFirst) == Bits(data[..i], lowFirst) + if lowFirst then LowFirst(data[i]) else HighFirst(data[i])
  {
    hide LowFirst, HighFirst;
    assert data[..i + 1][..i] == data[..i];
  }

  // ---------------------------------------------------------------- a known answer

  /** The digits 1 to 9 in ASCII. */
  const DIGITS: seq<bv8> := [0x31, 0x32, 0x33, 0x34, 0x35, 0x36, 0x37, 0x38, 0x39]

  /** The message of the catalogues of CRC algorithms: the sums of CRC-32/MPEG-2 and, with both options, of CRC-32/JAMCRC. */
  lemma KnownAnswers()
    ensures DivideLeft(START, Bits(DIGITS, false)) == 0x0376_E6E7
    ensures Rotate32(DivideLeft(START, Bits(DIGITS, true))) == 0x340B_C6D9
  {
    PlainDigits();
    RotatedDigits();
  }

  /** The register after the first digits. */
  function Register(i: nat, lowFirst: bool): bv32
    requires i <= 9
  {
    DivideLeft(START, Bits(DIGITS[..i], lowFirst))
  }

  lemma NoDigit(lowFirst: bool)
    ensures Register(0, lowFirst) == 0xffffffff
  {
    assert DIGITS[..0] == [] && Bits([], lowFirst) == [];
  }

  lemma AllDigits(lowFirst: bool)
    ensures Register(9, lowFirst) == DivideLeft(START, Bits(DIGITS, lowFirst))
  {
    assert DIGITS[..9] == DIGITS;
  }

  lemma NextDigit(i: nat, lowFirst: bool, b: bv8)
    requires i < 9 && DIGITS[i] == b
    ensures Register(i + 1, lowFirst) == Advance(Register(i, lowFirst), if lowFirst then Rotate8(b) else b)
  {
    var bits := Bits(DIGITS[..i], lowFirst);
    RotateByte(b);
    LookUp(Register(i, lowFirst), if lowFirst then Rotate8(b) else b);
    hide HighFirst, LowFirst, Advance, Rotate8, DivideLeft, DIGITS;
    MoreBits(DIGITS, i, lowFirst);
    DivideMore(START, bits, if lowFirst then LowFirst(b) else HighFirst(b));
  }

  lemma PlainDigits()
    ensures DivideLeft(START, Bits(DIGITS, false)) == 0x0376_E6E7
  {
    NoDigit(false);
    AllDigits(false);
    hide Register, DivideLeft, Bits, DIGITS;
    PlainDigits0();
    PlainDigits1();
    PlainDigits2();
    PlainDigits3();
    PlainDigits4();
    PlainDigits5();
    PlainDigits6();
    PlainDigits7();
    PlainDigits8();
  }

  lemma PlainDigits0()
    requires Register(0, false) == 0xffffffff
    ensures Register(1, false) == 0x9efbcf93
  {
    assert DIGITS[0] == 0x31;
    hide Register, DIGITS;
    NextDigit(0, false, 0x31);
  }

  lemma PlainDigits1()
    requires Register(1, false) == 0x9efbcf93
    ensures Register(2, false) == 0x3fec5e6a
  {
    assert DIGITS[1] == 0x32;
    hide Register, DIGITS;
    NextDigit(1, false, 0x32);
  }

  lemma PlainDigits2()
    requires Register(2, false) == 0x3fec5e6a
    ensures Register(3, false) == 0xd952f164
  {
    assert DIGITS[2] == 0x33;
    hide Register, DIGITS;
    NextDigit(2, false, 0x33);
  }

  lemma PlainDigits3()
    requires Register(3, false) == 0xd952f164
    ensures Register(4, false) == 0xa695c4aa
  {
    assert DIGITS[3] == 0x34;
    hide Register, DIGITS;
    NextDigit(3, false, 0x34);
  }

  lemma PlainDigits4()
    requires Register(4, false) == 0xa695c4aa
    ensures Register(5, false) == 0xbd9ab747
  {
    assert DIGITS[4] == 0x35;
    hide Register, DIGITS;
    NextDigit(4, false, 0x35);
  }

  lemma PlainDigits5()
    requires Register(5, false) == 0xbd9ab747
    ensures Register(6, false) == 0xd8f06c8f
  {
    assert DIGITS[5] == 0x36;
    hide Register, DIGITS;
    NextDigit(5, false, 0x36);
  }

  lemma PlainDigits6()
    requires Register(6, false) == 0xd8f06c8f
    ensures Register(7, false) == 0x0d8a14c4
  {
    assert DIGITS[6] == 0x37;
    hide Register, DIGITS;
    NextDigit(6, false, 0x37);
  }

  lemma PlainDigits7()
    requires Register(7, false) == 0x0d8a14c4
    ensures Register(8, false) == 0x49e3c2fb
  {
    assert DIGITS[7] == 0x38;
    hide Register, DIGITS;
    NextDigit(7, false, 0x38);
  }

  lemma PlainDigits8()
    requires Register(8, false) == 0x49e3c2fb
    ensures Register(9, false) == 0x0376e6e7
  {
    assert DIGITS[8] == 0x39;
    hide Register, DIGITS;
    NextDigit(8, false, 0x39);
  }

  lemma RotatedDigits()
    ensures Rotate32(DivideLeft(START, Bits(DIGITS, true))) == 0x340B_C6D9
  {
    NoDigit(true);
    AllDigits(true);
    hide Register, Rotate32, DivideLeft, Bits, DIGITS;
    RotatedDigits0();
    RotatedDigits1();
    RotatedDigits2();
    RotatedDigits3();
    RotatedDigits4();
    RotatedDigits5();
    RotatedDigits6();
    RotatedDigits7();
    RotatedDigits8();
    RotatedSum();
  }

  lemma RotatedDigits0()
    requires Register(0, true) == 0xffffffff
    ensures Register(1, true) == 0x1208c43e
  {
    assert DIGITS[0] == 0x31;
    hide Register, DIGITS;
    assert Rotate8(0x31) == 0x8c;
    hide Rotate8;
    NextDigit(0, true, 0x31);
  }

  lemma RotatedDigits1()
    requires Register(1, true) == 0x1208c43e
    ensures Register(2, true) == 0x4cdd350d
  {
    assert DIGITS[1] == 0x32;
    hide Register, DIGITS;
    assert Rotate8(0x32) == 0x4c;
    hide Rotate8;
    NextDigit(1, true, 0x32);
  }

  lemma RotatedDigits2()
    requires Register(2, true) == 0x4cdd350d
    ensures Register(3, true) == 0xb439edee
  {
    assert DIGITS[2] == 0x33;
    hide Register, DIGITS;
    assert Rotate8(0x33) == 0xcc;
    hide Rotate8;
    NextDigit(2, true, 0x33);
  }

  lemma RotatedDigits3()
    requires Register(3, true) == 0xb439edee
    ensures Register(4, true) == 0x3af83826
  {
    assert DIGITS[3] == 0x34;
    hide Register, DIGITS;
    assert Rotate8(0x34) == 0x2c;
    hide Rotate8;
    NextDigit(3, true, 0x34);
  }

  lemma RotatedDigits4()
    requires Register(4, true) == 0x3af83826
    ensures Register(5, true) == 0xc7a3502c
  {
    assert DIGITS[4] == 0x35;
    hide Register, DIGITS;
    assert Rotate8(0x35) == 0xac;
    hide Rotate8;
    NextDigit(4, true, 0x35);
  }

  lemma RotatedDigits5()
    requires Register(5, true) == 0xc7a3502c
    ensures Register(6, true) == 0x7934b16f
  {
    assert DIGITS[5] == 0x36;
    hide Register, DIGITS;
    assert Rotate8(0x36) == 0x6c;
    hide Rotate8;
    NextDigit(5, true, 0x36);
  }

  lemma RotatedDigits6()
    requires Register(6, true) == 0x7934b16f
    ensures Register(7, true) == 0x06693ff5
  {
    assert DIGITS[6] == 0x37;
    hide Register, DIGITS;
    assert Rotate8(0x37) == 0xec;
    hide Rotate8;
    NextDigit(6, true, 0x37);
  }

  lemma RotatedDigits7()
    requires Register(7, true) == 0x06693ff5
    ensures Register(8, true) == 0x0aa4f8a6
  {
    assert DIGITS[7] == 0x38;
    hide Register, DIGITS;
    assert Rotate8(0x38) == 0x1c;
    hide Rotate8;
    NextDigit(7, true, 0x38);
  }

  lemma RotatedDigits8()
    requires Register(8, true) == 0x0aa4f8a6
    ensures Register(9, true) == 0x9b63d02c
  {
    assert DIGITS[8] == 0x39;
    hide Register, DIGITS;
    assert Rotate8(0x39) == 0x9c;
    hide Rotate8;
    NextDigit(8, true, 0x39);
  }

  lemma RotatedSum()
    ensures Rotate32(0x9b63d02c) == 0x340B_C6D9
  {
  }
}
