/** The SmartMedia error-correcting code of YAFFS: the column parities of a byte. */
module EccTable {
  import opened WordBytes

  /** The column parities, each set bit giving its share: bits 7..2 hold them, bit 0 the parity of the
      byte. */
  function Columns(b: bv8): bv8 { X(Low(b), High(b)) }

  function Low(b: bv8): bv8
  {
    ((b & 1) * 0x55) ^ (((b >> 1) & 1) * 0x59) ^ (((b >> 2) & 1) * 0x65) ^ (((b >> 3) & 1) * 0x69)
  }

  function High(b: bv8): bv8
  {
    (((b >> 4) & 1) * 0x95) ^ (((b >> 5) & 1) * 0x99) ^ (((b >> 6) & 1) * 0xa5) ^ (((b >> 7) & 1) * 0xa9)
  }

  /** column_parity_table. */
  function Table(b: bv8): (t: bv8)
    ensures t == Columns(b)
  {
    hide Columns;
    if b < 0x20 then Part0(b) else if b < 0x40 then Part1(b) else if b < 0x60 then Part2(b)
    else if b < 0x80 then Part3(b) else if b < 0xa0 then Part4(b) else if b < 0xc0 then Part5(b)
    else if b < 0xe0 then Part6(b) else Part7(b)
  }

  function Part0(b: bv8): (t: bv8)
    requires b <= 0x1f
    ensures t == Columns(b)
  {
    match b
    case 0x00 => 0x00 case 0x01 => 0x55 case 0x02 => 0x59 case 0x03 => 0x0c case 0x04 => 0x65 case 0x05 => 0x30 case 0x06 => 0x3c case 0x07 => 0x69
    case 0x08 => 0x69 case 0x09 => 0x3c case 0x0a => 0x30 case 0x0b => 0x65 case 0x0c => 0x0c case 0x0d => 0x59 case 0x0e => 0x55 case 0x0f => 0x00
    case 0x10 => 0x95 case 0x11 => 0xc0 case 0x12 => 0xcc case 0x13 => 0x99 case 0x14 => 0xf0 case 0x15 => 0xa5 case 0x16 => 0xa9 case 0x17 => 0xfc
    case 0x18 => 0xfc case 0x19 => 0xa9 case 0x1a => 0xa5 case 0x1b => 0xf0 case 0x1c => 0x99 case 0x1d => 0xcc case 0x1e => 0xc0 case _ => 0x95
  }

  function Part1(b: bv8): (t: bv8)
    requires 0x20 <= b <= 0x3f
    ensures t == Columns(b)
  {
    match b
    case 0x20 => 0x99 case 0x21 => 0xcc case 0x22 => 0xc0 case 0x23 => 0x95 case 0x24 => 0xfc case 0x25 => 0xa9 case 0x26 => 0xa5 case 0x27 => 0xf0
    case 0x28 => 0xf0 case 0x29 => 0xa5 case 0x2a => 0xa9 case 0x2b => 0xfc case 0x2c => 0x95 case 0x2d => 0xc0 case 0x2e => 0xcc case 0x2f => 0x99
    case 0x30 => 0x0c case 0x31 => 0x59 case 0x32 => 0x55 case 0x33 => 0x00 case 0x34 => 0x69 case 0x35 => 0x3c case 0x36 => 0x30 case 0x37 => 0x65
    case 0x38 => 0x65 case 0x39 => 0x30 case 0x3a => 0x3c case 0x3b => 0x69 case 0x3c => 0x00 case 0x3d => 0x55 case 0x3e => 0x59 case _ => 0x0c
  }

  function Part2(b: bv8): (t: bv8)
    requires 0x40 <= b <= 0x5f
    ensures t == Columns(b)
  {
    match b
    case 0x40 => 0xa5 case 0x41 => 0xf0 case 0x42 => 0xfc case 0x43 => 0xa9 case 0x44 => 0xc0 case 0x45 => 0x95 case 0x46 => 0x99 case 0x47 => 0xcc
    case 0x48 => 0xcc case 0x49 => 0x99 case 0x4a => 0x95 case 0x4b => 0xc0 case 0x4c => 0xa9 case 0x4d => 0xfc case 0x4e => 0xf0 case 0x4f => 0xa5
    case 0x50 => 0x30 case 0x51 => 0x65 case 0x52 => 0x69 case 0x53 => 0x3c case 0x54 => 0x55 case 0x55 => 0x00 case 0x56 => 0x0c case 0x57 => 0x59
    case 0x58 => 0x59 case 0x59 => 0x0c case 0x5a => 0x00 case 0x5b => 0x55 case 0x5c => 0x3c case 0x5d => 0x69 case 0x5e => 0x65 case _ => 0x30
  }

  function Part3(b: bv8): (t: bv8)
    requires 0x60 <= b <= 0x7f
    ensures t == Columns(b)
  {
    match b
    case 0x60 => 0x3c case 0x61 => 0x69 case 0x62 => 0x65 case 0x63 => 0x30 case 0x64 => 0x59 case 0x65 => 0x0c case 0x66 => 0x00 case 0x67 => 0x55
    case 0x68 => 0x55 case 0x69 => 0x00 case 0x6a => 0x0c case 0x6b => 0x59 case 0x6c => 0x30 case 0x6d => 0x65 case 0x6e => 0x69 case 0x6f => 0x3c
    case 0x70 => 0xa9 case 0x71 => 0xfc case 0x72 => 0xf0 case 0x73 => 0xa5 case 0x74 => 0xcc case 0x75 => 0x99 case 0x76 => 0x95 case 0x77 => 0xc0
    case 0x78 => 0xc0 case 0x79 => 0x95 case 0x7a => 0x99 case 0x7b => 0xcc case 0x7c => 0xa5 case 0x7d => 0xf0 case 0x7e => 0xfc case _ => 0xa9
  }

  function Part4(b: bv8): (t: bv8)
    requires 0x80 <= b <= 0x9f
    ensures t == Columns(b)
  {
    match b
    case 0x80 => 0xa9 case 0x81 => 0xfc case 0x82 => 0xf0 case 0x83 => 0xa5 case 0x84 => 0xcc case 0x85 => 0x99 case 0x86 => 0x95 case 0x87 => 0xc0
    case 0x88 => 0xc0 case 0x89 => 0x95 case 0x8a => 0x99 case 0x8b => 0xcc case 0x8c => 0xa5 case 0x8d => 0xf0 case 0x8e => 0xfc case 0x8f => 0xa9
    case 0x90 => 0x3c case 0x91 => 0x69 case 0x92 => 0x65 case 0x93 => 0x30 case 0x94 => 0x59 case 0x95 => 0x0c case 0x96 => 0x00 case 0x97 => 0x55
    case 0x98 => 0x55 case 0x99 => 0x00 case 0x9a => 0x0c case 0x9b => 0x59 case 0x9c => 0x30 case 0x9d => 0x65 case 0x9e => 0x69 case _ => 0x3c
  }

  function Part5(b: bv8): (t: bv8)
    requires 0xa0 <= b <= 0xbf
    ensures t == Columns(b)
  {
    match b
    case 0xa0 => 0x30 case 0xa1 => 0x65 case 0xa2 => 0x69 case 0xa3 => 0x3c case 0xa4 => 0x55 case 0xa5 => 0x00 case 0xa6 => 0x0c case 0xa7 => 0x59
    case 0xa8 => 0x59 case 0xa9 => 0x0c case 0xaa => 0x00 case 0xab => 0x55 case 0xac => 0x3c case 0xad => 0x69 case 0xae => 0x65 case 0xaf => 0x30
    case 0xb0 => 0xa5 case 0xb1 => 0xf0 case 0xb2 => 0xfc case 0xb3 => 0xa9 case 0xb4 => 0xc0 case 0xb5 => 0x95 case 0xb6 => 0x99 case 0xb7 => 0xcc
    case 0xb8 => 0xcc case 0xb9 => 0x99 case 0xba => 0x95 case 0xbb => 0xc0 case 0xbc => 0xa9 case 0xbd => 0xfc case 0xbe => 0xf0 case _ => 0xa5
  }

  function Part6(b: bv8): (t: bv8)
    requires 0xc0 <= b <= 0xdf
    ensures t == Columns(b)
  {
    match b
    case 0xc0 => 0x0c case 0xc1 => 0x59 case 0xc2 => 0x55 case 0xc3 => 0x00 case 0xc4 => 0x69 case 0xc5 => 0x3c case 0xc6 => 0x30 case 0xc7 => 0x65
    case 0xc8 => 0x65 case 0xc9 => 0x30 case 0xca => 0x3c case 0xcb => 0x69 case 0xcc => 0x00 case 0xcd => 0x55 case 0xce => 0x59 case 0xcf => 0x0c
    case 0xd0 => 0x99 case 0xd1 => 0xcc case 0xd2 => 0xc0 case 0xd3 => 0x95 case 0xd4 => 0xfc case 0xd5 => 0xa9 case 0xd6 => 0xa5 case 0xd7 => 0xf0
    case 0xd8 => 0xf0 case 0xd9 => 0xa5 case 0xda => 0xa9 case 0xdb => 0xfc case 0xdc => 0x95 case 0xdd => 0xc0 case 0xde => 0xcc case _ => 0x99
  }

  function Part7(b: bv8): (t: bv8)
    requires 0xe0 <= b
    ensures t == Columns(b)
  {
    match b
    case 0xe0 => 0x95 case 0xe1 => 0xc0 case 0xe2 => 0xcc case 0xe3 => 0x99 case 0xe4 => 0xf0 case 0xe5 => 0xa5 case 0xe6 => 0xa9 case 0xe7 => 0xfc
    case 0xe8 => 0xfc case 0xe9 => 0xa9 case 0xea => 0xa5 case 0xeb => 0xf0 case 0xec => 0x99 case 0xed => 0xcc case 0xee => 0xc0 case 0xef => 0x95
    case 0xf0 => 0x00 case 0xf1 => 0x55 case 0xf2 => 0x59 case 0xf3 => 0x0c case 0xf4 => 0x65 case 0xf5 => 0x30 case 0xf6 => 0x3c case 0xf7 => 0x69
    case 0xf8 => 0x69 case 0xf9 => 0x3c case 0xfa => 0x30 case 0xfb => 0x65 case 0xfc => 0x0c case 0xfd => 0x59 case 0xfe => 0x55 case _ => 0x00
  }

  /** The table is linear. */
  lemma TableLinear(a: bv8, b: bv8)
    ensures Table(X(a, b)) == X(Table(a), Table(b))
  {
    ColumnsLinear(a, b);
    hide *;
  }

  lemma ColumnsLinear(a: bv8, b: bv8)
    ensures Columns(X(a, b)) == X(Columns(a), Columns(b))
  {
    LowLinear(a, b);
    HighLinear(a, b);
    Regroup(Low(a), Low(b), High(a), High(b));
    hide Low, High, X;
  }

  lemma Regroup(a: bv8, b: bv8, c: bv8, d: bv8)
    ensures X(X(a, b), X(c, d)) == X(X(a, c), X(b, d))
  {
    assert (a ^ b) ^ (c ^ d) == (a ^ c) ^ (b ^ d);
  }

  lemma LowLinear(a: bv8, b: bv8)
    ensures Low(X(a, b)) == X(Low(a), Low(b))
  {
    assert ((((a ^ b) & 1) * 0x55) ^ ((((a ^ b) >> 1) & 1) * 0x59) ^ ((((a ^ b) >> 2) & 1) * 0x65) ^ ((((a ^ b) >> 3) & 1) * 0x69)) ==
      (((a & 1) * 0x55) ^ (((a >> 1) & 1) * 0x59) ^ (((a >> 2) & 1) * 0x65) ^ (((a >> 3) & 1) * 0x69)) ^
      (((b & 1) * 0x55) ^ (((b >> 1) & 1) * 0x59) ^ (((b >> 2) & 1) * 0x65) ^ (((b >> 3) & 1) * 0x69));
  }

  lemma HighLinear(a: bv8, b: bv8)
    ensures High(X(a, b)) == X(High(a), High(b))
  {
    assert (((((a ^ b) >> 4) & 1) * 0x95) ^ ((((a ^ b) >> 5) & 1) * 0x99) ^ ((((a ^ b) >> 6) & 1) * 0xa5) ^ ((((a ^ b) >> 7) & 1) * 0xa9)) ==
      ((((a >> 4) & 1) * 0x95) ^ (((a >> 5) & 1) * 0x99) ^ (((a >> 6) & 1) * 0xa5) ^ (((a >> 7) & 1) * 0xa9)) ^
      ((((b >> 4) & 1) * 0x95) ^ (((b >> 5) & 1) * 0x99) ^ (((b >> 6) & 1) * 0xa5) ^ (((b >> 7) & 1) * 0xa9));
  }
}
