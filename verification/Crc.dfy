/** CRC-32 with a table and bit by bit, Common/Crc.c. */
module Crc {
  import opened Words

  type Bytes = seq<bv8>

  const POLYNOMIAL: bv32 := 0xEDB88320

  // ---- One bit and one byte at a time ----

  /** One bit of the division by the reversed polynomial of section 8 of RFC 1952. */
  function Step(r: bv32): bv32 { if Odd(r) then Xor(Half(r), POLYNOMIAL) else Half(r) }

  function EightSteps(r: bv32): bv32 { Step(Step(Step(Step(Step(Step(Step(Step(r)))))))) }

  /** The register after some bytes. */
  function Register(r: bv32, data: Bytes): bv32
    decreases |data|
  {
    if data == [] then r else Register(EightSteps(Xor(r, Extend(data[0]))), data[1..])
  }

  /** The CRC-32 of a string of bytes. */
  function Crc32(data: Bytes): bv32 { Xor(Register(0xffffffff, data), 0xffffffff) }

  // ---- The table crc_32_tab, sixteen entries a row ----

  function Row0(b: bv8): bv32 {
    match b
    case 0x00 => 0x00000000    case 0x01 => 0x77073096    case 0x02 => 0xee0e612c    case 0x03 => 0x990951ba
    case 0x04 => 0x076dc419    case 0x05 => 0x706af48f    case 0x06 => 0xe963a535    case 0x07 => 0x9e6495a3
    case 0x08 => 0x0edb8832    case 0x09 => 0x79dcb8a4    case 0x0a => 0xe0d5e91e    case 0x0b => 0x97d2d988
    case 0x0c => 0x09b64c2b    case 0x0d => 0x7eb17cbd    case 0x0e => 0xe7b82d07    case _ => 0x90bf1d91
  }

  function Row1(b: bv8): bv32 {
    match b
    case 0x10 => 0x1db71064    case 0x11 => 0x6ab020f2    case 0x12 => 0xf3b97148    case 0x13 => 0x84be41de
    case 0x14 => 0x1adad47d    case 0x15 => 0x6ddde4eb    case 0x16 => 0xf4d4b551    case 0x17 => 0x83d385c7
    case 0x18 => 0x136c9856    case 0x19 => 0x646ba8c0    case 0x1a => 0xfd62f97a    case 0x1b => 0x8a65c9ec
    case 0x1c => 0x14015c4f    case 0x1d => 0x63066cd9    case 0x1e => 0xfa0f3d63    case _ => 0x8d080df5
  }

  function Row2(b: bv8): bv32 {
    match b
    case 0x20 => 0x3b6e20c8    case 0x21 => 0x4c69105e    case 0x22 => 0xd56041e4    case 0x23 => 0xa2677172
    case 0x24 => 0x3c03e4d1    case 0x25 => 0x4b04d447    case 0x26 => 0xd20d85fd    case 0x27 => 0xa50ab56b
    case 0x28 => 0x35b5a8fa    case 0x29 => 0x42b2986c    case 0x2a => 0xdbbbc9d6    case 0x2b => 0xacbcf940
    case 0x2c => 0x32d86ce3    case 0x2d => 0x45df5c75    case 0x2e => 0xdcd60dcf    case _ => 0xabd13d59
  }

  function Row3(b: bv8): bv32 {
    match b
    case 0x30 => 0x26d930ac    case 0x31 => 0x51de003a    case 0x32 => 0xc8d75180    case 0x33 => 0xbfd06116
    case 0x34 => 0x21b4f4b5    case 0x35 => 0x56b3c423    case 0x36 => 0xcfba9599    case 0x37 => 0xb8bda50f
    case 0x38 => 0x2802b89e    case 0x39 => 0x5f058808    case 0x3a => 0xc60cd9b2    case 0x3b => 0xb10be924
    case 0x3c => 0x2f6f7c87    case 0x3d => 0x58684c11    case 0x3e => 0xc1611dab    case _ => 0xb6662d3d
  }

  function Row4(b: bv8): bv32 {
    match b
    case 0x40 => 0x76dc4190    case 0x41 => 0x01db7106    case 0x42 => 0x98d220bc    case 0x43 => 0xefd5102a
    case 0x44 => 0x71b18589    case 0x45 => 0x06b6b51f    case 0x46 => 0x9fbfe4a5    case 0x47 => 0xe8b8d433
    case 0x48 => 0x7807c9a2    case 0x49 => 0x0f00f934    case 0x4a => 0x9609a88e    case 0x4b => 0xe10e9818
    case 0x4c => 0x7f6a0dbb    case 0x4d => 0x086d3d2d    case 0x4e => 0x91646c97    case _ => 0xe6635c01
  }

  function Row5(b: bv8): bv32 {
    match b
    case 0x50 => 0x6b6b51f4    case 0x51 => 0x1c6c6162    case 0x52 => 0x856530d8    case 0x53 => 0xf262004e
    case 0x54 => 0x6c0695ed    case 0x55 => 0x1b01a57b    case 0x56 => 0x8208f4c1    case 0x57 => 0xf50fc457
    case 0x58 => 0x65b0d9c6    case 0x59 => 0x12b7e950    case 0x5a => 0x8bbeb8ea    case 0x5b => 0xfcb9887c
    case 0x5c => 0x62dd1ddf    case 0x5d => 0x15da2d49    case 0x5e => 0x8cd37cf3    case _ => 0xfbd44c65
  }

  function Row6(b: bv8): bv32 {
    match b
    case 0x60 => 0x4db26158    case 0x61 => 0x3ab551ce    case 0x62 => 0xa3bc0074    case 0x63 => 0xd4bb30e2
    case 0x64 => 0x4adfa541    case 0x65 => 0x3dd895d7    case 0x66 => 0xa4d1c46d    case 0x67 => 0xd3d6f4fb
    case 0x68 => 0x4369e96a    case 0x69 => 0x346ed9fc    case 0x6a => 0xad678846    case 0x6b => 0xda60b8d0
    case 0x6c => 0x44042d73    case 0x6d => 0x33031de5    case 0x6e => 0xaa0a4c5f    case _ => 0xdd0d7cc9
  }

  function Row7(b: bv8): bv32 {
    match b
    case 0x70 => 0x5005713c    case 0x71 => 0x270241aa    case 0x72 => 0xbe0b1010    case 0x73 => 0xc90c2086
    case 0x74 => 0x5768b525    case 0x75 => 0x206f85b3    case 0x76 => 0xb966d409    case 0x77 => 0xce61e49f
    case 0x78 => 0x5edef90e    case 0x79 => 0x29d9c998    case 0x7a => 0xb0d09822    case 0x7b => 0xc7d7a8b4
    case 0x7c => 0x59b33d17    case 0x7d => 0x2eb40d81    case 0x7e => 0xb7bd5c3b    case _ => 0xc0ba6cad
  }

  function Row8(b: bv8): bv32 {
    match b
    case 0x80 => 0xedb88320    case 0x81 => 0x9abfb3b6    case 0x82 => 0x03b6e20c    case 0x83 => 0x74b1d29a
    case 0x84 => 0xead54739    case 0x85 => 0x9dd277af    case 0x86 => 0x04db2615    case 0x87 => 0x73dc1683
    case 0x88 => 0xe3630b12    case 0x89 => 0x94643b84    case 0x8a => 0x0d6d6a3e    case 0x8b => 0x7a6a5aa8
    case 0x8c => 0xe40ecf0b    case 0x8d => 0x9309ff9d    case 0x8e => 0x0a00ae27    case _ => 0x7d079eb1
  }

  function Row9(b: bv8): bv32 {
    match b
    case 0x90 => 0xf00f9344    case 0x91 => 0x8708a3d2    case 0x92 => 0x1e01f268    case 0x93 => 0x6906c2fe
    case 0x94 => 0xf762575d    case 0x95 => 0x806567cb    case 0x96 => 0x196c3671    case 0x97 => 0x6e6b06e7
    case 0x98 => 0xfed41b76    case 0x99 => 0x89d32be0    case 0x9a => 0x10da7a5a    case 0x9b => 0x67dd4acc
    case 0x9c => 0xf9b9df6f    case 0x9d => 0x8ebeeff9    case 0x9e => 0x17b7be43    case _ => 0x60b08ed5
  }

  function RowA(b: bv8): bv32 {
    match b
    case 0xa0 => 0xd6d6a3e8    case 0xa1 => 0xa1d1937e    case 0xa2 => 0x38d8c2c4    case 0xa3 => 0x4fdff252
    case 0xa4 => 0xd1bb67f1    case 0xa5 => 0xa6bc5767    case 0xa6 => 0x3fb506dd    case 0xa7 => 0x48b2364b
    case 0xa8 => 0xd80d2bda    case 0xa9 => 0xaf0a1b4c    case 0xaa => 0x36034af6    case 0xab => 0x41047a60
    case 0xac => 0xdf60efc3    case 0xad => 0xa867df55    case 0xae => 0x316e8eef    case _ => 0x4669be79
  }

  function RowB(b: bv8): bv32 {
    match b
    case 0xb0 => 0xcb61b38c    case 0xb1 => 0xbc66831a    case 0xb2 => 0x256fd2a0    case 0xb3 => 0x5268e236
    case 0xb4 => 0xcc0c7795    case 0xb5 => 0xbb0b4703    case 0xb6 => 0x220216b9    case 0xb7 => 0x5505262f
    case 0xb8 => 0xc5ba3bbe    case 0xb9 => 0xb2bd0b28    case 0xba => 0x2bb45a92    case 0xbb => 0x5cb36a04
    case 0xbc => 0xc2d7ffa7    case 0xbd => 0xb5d0cf31    case 0xbe => 0x2cd99e8b    case _ => 0x5bdeae1d
  }

  function RowC(b: bv8): bv32 {
    match b
    case 0xc0 => 0x9b64c2b0    case 0xc1 => 0xec63f226    case 0xc2 => 0x756aa39c    case 0xc3 => 0x026d930a
    case 0xc4 => 0x9c0906a9    case 0xc5 => 0xeb0e363f    case 0xc6 => 0x72076785    case 0xc7 => 0x05005713
    case 0xc8 => 0x95bf4a82    case 0xc9 => 0xe2b87a14    case 0xca => 0x7bb12bae    case 0xcb => 0x0cb61b38
    case 0xcc => 0x92d28e9b    case 0xcd => 0xe5d5be0d    case 0xce => 0x7cdcefb7    case _ => 0x0bdbdf21
  }

  function RowD(b: bv8): bv32 {
    match b
    case 0xd0 => 0x86d3d2d4    case 0xd1 => 0xf1d4e242    case 0xd2 => 0x68ddb3f8    case 0xd3 => 0x1fda836e
    case 0xd4 => 0x81be16cd    case 0xd5 => 0xf6b9265b    case 0xd6 => 0x6fb077e1    case 0xd7 => 0x18b74777
    case 0xd8 => 0x88085ae6    case 0xd9 => 0xff0f6a70    case 0xda => 0x66063bca    case 0xdb => 0x11010b5c
    case 0xdc => 0x8f659eff    case 0xdd => 0xf862ae69    case 0xde => 0x616bffd3    case _ => 0x166ccf45
  }

  function RowE(b: bv8): bv32 {
    match b
    case 0xe0 => 0xa00ae278    case 0xe1 => 0xd70dd2ee    case 0xe2 => 0x4e048354    case 0xe3 => 0x3903b3c2
    case 0xe4 => 0xa7672661    case 0xe5 => 0xd06016f7    case 0xe6 => 0x4969474d    case 0xe7 => 0x3e6e77db
    case 0xe8 => 0xaed16a4a    case 0xe9 => 0xd9d65adc    case 0xea => 0x40df0b66    case 0xeb => 0x37d83bf0
    case 0xec => 0xa9bcae53    case 0xed => 0xdebb9ec5    case 0xee => 0x47b2cf7f    case _ => 0x30b5ffe9
  }

  function RowF(b: bv8): bv32 {
    match b
    case 0xf0 => 0xbdbdf21c    case 0xf1 => 0xcabac28a    case 0xf2 => 0x53b39330    case 0xf3 => 0x24b4a3a6
    case 0xf4 => 0xbad03605    case 0xf5 => 0xcdd70693    case 0xf6 => 0x54de5729    case 0xf7 => 0x23d967bf
    case 0xf8 => 0xb3667a2e    case 0xf9 => 0xc4614ab8    case 0xfa => 0x5d681b02    case 0xfb => 0x2a6f2b94
    case 0xfc => 0xb40bbe37    case 0xfd => 0xc30c8ea1    case 0xfe => 0x5a05df1b    case _ => 0x2d02ef8d
  }

  function Table(b: bv8): bv32 {
    match b >> 4
    case 0 => Row0(b)
    case 1 => Row1(b)
    case 2 => Row2(b)
    case 3 => Row3(b)
    case 4 => Row4(b)
    case 5 => Row5(b)
    case 6 => Row6(b)
    case 7 => Row7(b)
    case 8 => Row8(b)
    case 9 => Row9(b)
    case 10 => RowA(b)
    case 11 => RowB(b)
    case 12 => RowC(b)
    case 13 => RowD(b)
    case 14 => RowE(b)
    case _ => RowF(b)
  }

  lemma Row0IsSteps(b: bv8)
    requires b >> 4 == 0
    ensures Row0(b) == EightSteps(Extend(b))
  {
    match b
    case 0x00 => case 0x01 => case 0x02 => case 0x03 => case 0x04 => case 0x05 => case 0x06 => case 0x07 =>
    case 0x08 => case 0x09 => case 0x0a => case 0x0b => case 0x0c => case 0x0d => case 0x0e => case _ =>
  }

  lemma Row1IsSteps(b: bv8)
    requires b >> 4 == 1
    ensures Row1(b) == EightSteps(Extend(b))
  {
    match b
    case 0x10 => case 0x11 => case 0x12 => case 0x13 => case 0x14 => case 0x15 => case 0x16 => case 0x17 =>
    case 0x18 => case 0x19 => case 0x1a => case 0x1b => case 0x1c => case 0x1d => case 0x1e => case _ =>
  }

  lemma Row2IsSteps(b: bv8)
    requires b >> 4 == 2
    ensures Row2(b) == EightSteps(Extend(b))
  {
    match b
    case 0x20 => case 0x21 => case 0x22 => case 0x23 => case 0x24 => case 0x25 => case 0x26 => case 0x27 =>
    case 0x28 => case 0x29 => case 0x2a => case 0x2b => case 0x2c => case 0x2d => case 0x2e => case _ =>
  }

  lemma Row3IsSteps(b: bv8)
    requires b >> 4 == 3
    ensures Row3(b) == EightSteps(Extend(b))
  {
    match b
    case 0x30 => case 0x31 => case 0x32 => case 0x33 => case 0x34 => case 0x35 => case 0x36 => case 0x37 =>
    case 0x38 => case 0x39 => case 0x3a => case 0x3b => case 0x3c => case 0x3d => case 0x3e => case _ =>
  }

  lemma Row4IsSteps(b: bv8)
    requires b >> 4 == 4
    ensures Row4(b) == EightSteps(Extend(b))
  {
    match b
    case 0x40 => case 0x41 => case 0x42 => case 0x43 => case 0x44 => case 0x45 => case 0x46 => case 0x47 =>
    case 0x48 => case 0x49 => case 0x4a => case 0x4b => case 0x4c => case 0x4d => case 0x4e => case _ =>
  }

  lemma Row5IsSteps(b: bv8)
    requires b >> 4 == 5
    ensures Row5(b) == EightSteps(Extend(b))
  {
    match b
    case 0x50 => case 0x51 => case 0x52 => case 0x53 => case 0x54 => case 0x55 => case 0x56 => case 0x57 =>
    case 0x58 => case 0x59 => case 0x5a => case 0x5b => case 0x5c => case 0x5d => case 0x5e => case _ =>
  }

  lemma Row6IsSteps(b: bv8)
    requires b >> 4 == 6
    ensures Row6(b) == EightSteps(Extend(b))
  {
    match b
    case 0x60 => case 0x61 => case 0x62 => case 0x63 => case 0x64 => case 0x65 => case 0x66 => case 0x67 =>
    case 0x68 => case 0x69 => case 0x6a => case 0x6b => case 0x6c => case 0x6d => case 0x6e => case _ =>
  }

  lemma Row7IsSteps(b: bv8)
    requires b >> 4 == 7
    ensures Row7(b) == EightSteps(Extend(b))
  {
    match b
    case 0x70 => case 0x71 => case 0x72 => case 0x73 => case 0x74 => case 0x75 => case 0x76 => case 0x77 =>
    case 0x78 => case 0x79 => case 0x7a => case 0x7b => case 0x7c => case 0x7d => case 0x7e => case _ =>
  }

  lemma Row8IsSteps(b: bv8)
    requires b >> 4 == 8
    ensures Row8(b) == EightSteps(Extend(b))
  {
    match b
    case 0x80 => case 0x81 => case 0x82 => case 0x83 => case 0x84 => case 0x85 => case 0x86 => case 0x87 =>
    case 0x88 => case 0x89 => case 0x8a => case 0x8b => case 0x8c => case 0x8d => case 0x8e => case _ =>
  }

  lemma Row9IsSteps(b: bv8)
    requires b >> 4 == 9
    ensures Row9(b) == EightSteps(Extend(b))
  {
    match b
    case 0x90 => case 0x91 => case 0x92 => case 0x93 => case 0x94 => case 0x95 => case 0x96 => case 0x97 =>
    case 0x98 => case 0x99 => case 0x9a => case 0x9b => case 0x9c => case 0x9d => case 0x9e => case _ =>
  }

  lemma RowAIsSteps(b: bv8)
    requires b >> 4 == 10
    ensures RowA(b) == EightSteps(Extend(b))
  {
    match b
    case 0xa0 => case 0xa1 => case 0xa2 => case 0xa3 => case 0xa4 => case 0xa5 => case 0xa6 => case 0xa7 =>
    case 0xa8 => case 0xa9 => case 0xaa => case 0xab => case 0xac => case 0xad => case 0xae => case _ =>
  }

  lemma RowBIsSteps(b: bv8)
    requires b >> 4 == 11
    ensures RowB(b) == EightSteps(Extend(b))
  {
    match b
    case 0xb0 => case 0xb1 => case 0xb2 => case 0xb3 => case 0xb4 => case 0xb5 => case 0xb6 => case 0xb7 =>
    case 0xb8 => case 0xb9 => case 0xba => case 0xbb => case 0xbc => case 0xbd => case 0xbe => case _ =>
  }

  lemma RowCIsSteps(b: bv8)
    requires b >> 4 == 12
    ensures RowC(b) == EightSteps(Extend(b))
  {
    match b
    case 0xc0 => case 0xc1 => case 0xc2 => case 0xc3 => case 0xc4 => case 0xc5 => case 0xc6 => case 0xc7 =>
    case 0xc8 => case 0xc9 => case 0xca => case 0xcb => case 0xcc => case 0xcd => case 0xce => case _ =>
  }

  lemma RowDIsSteps(b: bv8)
    requires b >> 4 == 13
    ensures RowD(b) == EightSteps(Extend(b))
  {
    match b
    case 0xd0 => case 0xd1 => case 0xd2 => case 0xd3 => case 0xd4 => case 0xd5 => case 0xd6 => case 0xd7 =>
    case 0xd8 => case 0xd9 => case 0xda => case 0xdb => case 0xdc => case 0xdd => case 0xde => case _ =>
  }

  lemma RowEIsSteps(b: bv8)
    requires b >> 4 == 14
    ensures RowE(b) == EightSteps(Extend(b))
  {
    match b
    case 0xe0 => case 0xe1 => case 0xe2 => case 0xe3 => case 0xe4 => case 0xe5 => case 0xe6 => case 0xe7 =>
    case 0xe8 => case 0xe9 => case 0xea => case 0xeb => case 0xec => case 0xed => case 0xee => case _ =>
  }

  lemma RowFIsSteps(b: bv8)
    requires b >> 4 == 15
    ensures RowF(b) == EightSteps(Extend(b))
  {
    match b
    case 0xf0 => case 0xf1 => case 0xf2 => case 0xf3 => case 0xf4 => case 0xf5 => case 0xf6 => case 0xf7 =>
    case 0xf8 => case 0xf9 => case 0xfa => case 0xfb => case 0xfc => case 0xfd => case 0xfe => case _ =>
  }

  /** Every entry of the table is eight steps of its index. */
  lemma TableIsSteps(b: bv8)
    ensures Table(b) == EightSteps(Extend(b))
  {
    hide EightSteps; hide Extend;
    hide Row0;
    hide Row1;
    hide Row2;
    hide Row3;
    hide Row4;
    hide Row5;
    hide Row6;
    hide Row7;
    hide Row8;
    hide Row9;
    hide RowA;
    hide RowB;
    hide RowC;
    hide RowD;
    hide RowE;
    hide RowF;
    match b >> 4
    case 0 => Row0IsSteps(b);
    case 1 => Row1IsSteps(b);
    case 2 => Row2IsSteps(b);
    case 3 => Row3IsSteps(b);
    case 4 => Row4IsSteps(b);
    case 5 => Row5IsSteps(b);
    case 6 => Row6IsSteps(b);
    case 7 => Row7IsSteps(b);
    case 8 => Row8IsSteps(b);
    case 9 => Row9IsSteps(b);
    case 10 => RowAIsSteps(b);
    case 11 => RowBIsSteps(b);
    case 12 => RowCIsSteps(b);
    case 13 => RowDIsSteps(b);
    case 14 => RowEIsSteps(b);
    case _ => RowFIsSteps(b);
  }

  lemma StepLinear(a: bv32, b: bv32)
    ensures Step(Xor(a, b)) == Xor(Step(a), Step(b))
  {
    hide Xor; hide Half; hide Odd;
    HalfXor(a, b);
    var p, q := Half(a), Half(b);
    XorAssoc(p, q, POLYNOMIAL);
    XorComm(q, POLYNOMIAL);
    XorAssoc(p, POLYNOMIAL, q);
    XorMiddle(p, POLYNOMIAL, q, POLYNOMIAL);
    XorSelf(POLYNOMIAL);
    XorSelf(Xor(p, q));
  }

  lemma StepsLinear(a: bv32, b: bv32)
    ensures EightSteps(Xor(a, b)) == Xor(EightSteps(a), EightSteps(b))
  {
    hide Step; hide Xor;
    StepLinear(a, b);
    var a1, b1 := Step(a), Step(b);
    StepLinear(a1, b1);
    var a2, b2 := Step(a1), Step(b1);
    StepLinear(a2, b2);
    var a3, b3 := Step(a2), Step(b2);
    StepLinear(a3, b3);
    var a4, b4 := Step(a3), Step(b3);
    StepLinear(a4, b4);
    var a5, b5 := Step(a4), Step(b4);
    StepLinear(a5, b5);
    var a6, b6 := Step(a5), Step(b5);
    StepLinear(a6, b6);
    StepLinear(Step(a6), Step(b6));
  }

  lemma NoLowByte(r: bv32)
    requires LowByte(r) == 0
    ensures EightSteps(r) == DropByte(r)
  {
  }

  /** Eight steps are a shift by a byte and a look-up. */
  lemma LookUpIsSteps(r: bv32)
    ensures Xor(DropByte(r), Table(LowByte(r))) == EightSteps(r)
  {
    hide EightSteps; hide Table; hide Xor; hide DropByte; hide LowByte; hide WithoutByte; hide Extend;
    Parts(r);
    StepsLinear(WithoutByte(r), Extend(LowByte(r)));
    NoLowByte(WithoutByte(r));
    TableIsSteps(LowByte(r));
  }

  /** UPDC32: the register after one more byte, with the table. */
  function Update(octet: bv8, crc: bv32): bv32 {
    Table(((crc ^ (octet as bv32)) & 0xff) as bv8) ^ (crc >> 8)
  }

  lemma UpdateIsSteps(octet: bv8, crc: bv32)
    ensures Update(octet, crc) == EightSteps(Xor(crc, Extend(octet)))
  {
    hide EightSteps; hide Table; hide Xor; hide DropByte; hide LowByte; hide Extend; hide Update;
    LookUpIsSteps(Xor(crc, Extend(octet)));
    UpdateParts(octet, crc);
    XorComm(DropByte(Xor(crc, Extend(octet))), Table(LowByte(Xor(crc, Extend(octet)))));
  }

  lemma UpdateParts(octet: bv8, crc: bv32)
    ensures Update(octet, crc) == Xor(Table(LowByte(Xor(crc, Extend(octet)))), DropByte(Xor(crc, Extend(octet))))
  {
    hide Table; hide LowByte; hide DropByte; hide Extend; hide Xor;
    SameRest(crc, octet);
    SameIndex(crc, octet);
    XorIs(Table(((crc ^ (octet as bv32)) & 0xff) as bv8), crc >> 8);
  }

  lemma SameIndex(r: bv32, b: bv8)
    ensures LowByte(Xor(r, Extend(b))) == ((r ^ (b as bv32)) & 0xff) as bv8
  {
  }

  lemma XorIs(a: bv32, b: bv32)
    ensures Xor(a, b) == a ^ b
  {
  }

  lemma SameRest(r: bv32, b: bv8)
    ensures DropByte(Xor(r, Extend(b))) == r >> 8
  {
  }

  lemma {:induction false} RegisterAppend(r: bv32, a: Bytes, b: Bytes)
    ensures Register(r, a + b) == Register(Register(r, a), b)
    decreases |a|
  {
    hide EightSteps; hide Xor; hide Extend;
    if a == [] {
      assert a + b == b;
    } else {
      assert (a + b)[1..] == a[1..] + b;
      RegisterAppend(EightSteps(Xor(r, Extend(a[0]))), a[1..], b);
    }
  }

  /** GetCrc32 with the table. */
  method GetCrc32(data: array<bv8>) returns (crc: bv32)
    ensures crc == Crc32(data[..])
  {
    hide EightSteps; hide Update; hide Extend; hide Register; hide Xor;
    crc := 0xffffffff;
    var i := 0;
    while i < data.Length
      invariant 0 <= i <= data.Length
      invariant Register(crc, data[i..]) == Register(0xffffffff, data[..])
    {
      UpdateIsSteps(data[i], crc);
      NextByte(crc, data[i..]);
      assert data[i..][1..] == data[i + 1..];
      crc := Update(data[i], crc);
      i := i + 1;
    }
    LastByte(crc);
    XorIs(crc, 0xffffffff);
    crc := crc ^ 0xffffffff;
  }

  lemma NextByte(r: bv32, data: Bytes)
    requires data != []
    ensures Register(r, data) == Register(EightSteps(Xor(r, Extend(data[0]))), data[1..])
  {
  }

  lemma LastByte(r: bv32)
    ensures Register(r, []) == r
  {
  }

  lemma OneByte(r: bv32, b: bv8)
    ensures Register(r, [b]) == EightSteps(Xor(r, Extend(b)))
  {
    hide EightSteps; hide Xor; hide Extend;
    NextByte(r, [b]);
    LastByte(EightSteps(Xor(r, Extend(b))));
  }

  /** The register before and after byte i. */
  lemma NextRegister(r: bv32, data: Bytes, i: nat, x: bv32, next: bv32)
    requires i < |data| && x == Xor(r, Extend(data[i])) && next == EightSteps(x)
    ensures Register(r, data[i..]) == Register(next, data[i + 1..])
  {
    hide EightSteps; hide Xor; hide Extend;
    NextByte(r, data[i..]);
    assert data[i..][1..] == data[i + 1..];
  }

  /** The check value that is published for CRC-32, of the digits 1 to 9. */
  lemma CheckValue()
    ensures Crc32([0x31, 0x32, 0x33, 0x34, 0x35, 0x36, 0x37, 0x38, 0x39]) == 0xcbf43926
  {
    var data: Bytes := [0x31, 0x32, 0x33, 0x34, 0x35, 0x36, 0x37, 0x38, 0x39];
    CheckSteps();
    CheckXors();
    hide EightSteps; hide Xor; hide Extend; hide Register;
    NextRegister(0xffffffff, data, 0, 0xffffffce, 0x7c231048);
    NextRegister(0x7c231048, data, 1, 0x7c23107a, 0xb0acbb32);
    NextRegister(0xb0acbb32, data, 2, 0xb0acbb01, 0x77b79c2d);
    NextRegister(0x77b79c2d, data, 3, 0x77b79c19, 0x641c1f5c);
    NextRegister(0x641c1f5c, data, 4, 0x641c1f69, 0x340ac5e3);
    NextRegister(0x340ac5e3, data, 5, 0x340ac5d5, 0xf68d2c9e);
    NextRegister(0xf68d2c9e, data, 6, 0xf68d2ca9, 0xaffc9660);
    NextRegister(0xaffc9660, data, 7, 0xaffc9658, 0x651f2550);
    NextRegister(0x651f2550, data, 8, 0x651f2569, 0x340bc6d9);
    assert data[0..] == data && data[9..] == [];
    LastByte(0x340bc6d9);
    assert Xor(0x340bc6d9, 0xffffffff) == 0xcbf43926;
  }

  lemma CheckXors()
    ensures Xor(0xffffffff, Extend(0x31)) == 0xffffffce
    ensures Xor(0x7c231048, Extend(0x32)) == 0x7c23107a
    ensures Xor(0xb0acbb32, Extend(0x33)) == 0xb0acbb01
    ensures Xor(0x77b79c2d, Extend(0x34)) == 0x77b79c19
    ensures Xor(0x641c1f5c, Extend(0x35)) == 0x641c1f69
    ensures Xor(0x340ac5e3, Extend(0x36)) == 0x340ac5d5
    ensures Xor(0xf68d2c9e, Extend(0x37)) == 0xf68d2ca9
    ensures Xor(0xaffc9660, Extend(0x38)) == 0xaffc9658
    ensures Xor(0x651f2550, Extend(0x39)) == 0x651f2569
    ensures Xor(0x340bc6d9, 0xffffffff) == 0xcbf43926
  {
  }

  lemma CheckSteps()
    ensures EightSteps(0xffffffce) == 0x7c231048
    ensures EightSteps(0x7c23107a) == 0xb0acbb32
    ensures EightSteps(0xb0acbb01) == 0x77b79c2d
    ensures EightSteps(0x77b79c19) == 0x641c1f5c
    ensures EightSteps(0x641c1f69) == 0x340ac5e3
    ensures EightSteps(0x340ac5d5) == 0xf68d2c9e
    ensures EightSteps(0xf68d2ca9) == 0xaffc9660
    ensures EightSteps(0xaffc9658) == 0x651f2550
    ensures EightSteps(0x651f2569) == 0x340bc6d9
  {
  }

  /** GetCrc32 where code size is minimized. */
  method GetCrc32Bitwise(data: array<bv8>) returns (crc: bv32)
    ensures crc == Crc32(data[..])
  {
    hide EightSteps; hide Step; hide Register; hide Steps; hide Extend; hide Xor;
    crc := 0xffffffff;
    var i := 0;
    while i < data.Length
      invariant 0 <= i <= data.Length
      invariant Register(crc, data[i..]) == Register(0xffffffff, data[..])
    {
      NextByte(crc, data[i..]);
      assert data[i..][1..] == data[i + 1..];
      ghost var r := Xor(crc, Extend(data[i]));
      crc := AddByte(crc, data[i]);
      EightIsSteps(r);
      var b := 0;
      while b < 8
        invariant 0 <= b <= 8 && Steps(8 - b, crc) == EightSteps(r)
      {
        crc := OneStep(crc, 8 - b);
        b := b + 1;
      }
      NoSteps(crc);
      i := i + 1;
    }
    LastByte(crc);
    XorIs(crc, 0xffffffff);
    crc := crc ^ 0xffffffff;
  }

  method AddByte(r: bv32, b: bv8) returns (s: bv32)
    ensures s == Xor(r, Extend(b))
  {
    s := r ^ (b as bv32);
  }

  method OneStep(r: bv32, ghost left: nat) returns (s: bv32)
    requires left > 0
    ensures Steps(left - 1, s) == Steps(left, r)
  {
    assert Step(r) == if (r & 0xff) & 1 == 1 then (r >> 1) ^ 0xEDB88320 else r >> 1;
    if (r & 0xff) & 1 == 1 {
      s := (r >> 1) ^ 0xEDB88320;
    } else {
      s := r >> 1;
    }
  }

  function Steps(n: nat, r: bv32): bv32 { if n == 0 then r else Steps(n - 1, Step(r)) }

  lemma NoSteps(r: bv32)
    ensures Steps(0, r) == r
  {
  }

  lemma EightIsSteps(r: bv32)
    ensures Steps(8, r) == EightSteps(r)
  {
    hide Step;
    var r1 := Step(r);
    var r2 := Step(r1);
    var r3 := Step(r2);
    var r4 := Step(r3);
    assert Steps(8, r) == Steps(7, r1) == Steps(6, r2);
    assert Steps(6, r2) == Steps(5, r3) == Steps(4, r4);
    var r5 := Step(r4);
    var r6 := Step(r5);
    var r7 := Step(r6);
    assert Steps(4, r4) == Steps(3, r5) == Steps(2, r6);
    assert Steps(2, r6) == Steps(1, r7) == Steps(0, Step(r7));
  }

  /** crc32int: the CRC of the four bytes of a word. */
  method Crc32Int(d: Bytes) returns (crc: bv32)
    requires |d| == 4
    ensures crc == Crc32(d)
  {
    hide EightSteps; hide Update; hide Register; hide Extend; hide Xor;
    crc := 0xffffffff;
    UpdateIsSteps(d[0], crc);
    NextByte(crc, d);
    crc := Update(d[0], crc);
    assert d[1..][1..] == d[2..] && d[2..][1..] == d[3..] && d[3..][1..] == [];
    UpdateIsSteps(d[1], crc);
    NextByte(crc, d[1..]);
    crc := Update(d[1], crc);
    UpdateIsSteps(d[2], crc);
    NextByte(crc, d[2..]);
    crc := Update(d[2], crc);
    UpdateIsSteps(d[3], crc);
    NextByte(crc, d[3..]);
    crc := Update(d[3], crc);
    LastByte(crc);
    XorIs(crc, 0xffffffff);
    crc := crc ^ 0xffffffff;
  }

  // ---- Burst errors ----

  lemma StepReversible(d: bv32)
    requires Step(d) < 0x80000000
    ensures d == Step(d) << 1
  {
  }

  lemma StepInjective(a: bv32, b: bv32)
    requires Step(a) == Step(b)
    ensures a == b
  {
    hide Step; hide Xor;
    StepLinear(a, b);
    XorSelf(Step(a));
    StepReversible(Xor(a, b));
    XorZeroSame(a, b);
  }

  lemma StepsInjective(a: bv32, b: bv32)
    requires EightSteps(a) == EightSteps(b)
    ensures a == b
  {
    hide Step;
    var a4, b4 := Step(Step(Step(Step(a)))), Step(Step(Step(Step(b))));
    StepInjective(Step(Step(Step(a4))), Step(Step(Step(b4))));
    StepInjective(Step(Step(a4)), Step(Step(b4)));
    StepInjective(Step(a4), Step(b4));
    StepInjective(a4, b4);
    StepInjective(Step(Step(Step(a))), Step(Step(Step(b))));
    StepInjective(Step(Step(a)), Step(Step(b)));
    StepInjective(Step(a), Step(b));
    StepInjective(a, b);
  }

  function Double(e: bv32): bv32 { e << 1 }

  lemma UndoStep24(d: bv32)
    requires Step(d) < 0x1000000
    ensures d == Double(Step(d)) && d < 0x2000000
  {
  }

  lemma UndoStep25(d: bv32)
    requires Step(d) < 0x2000000
    ensures d == Double(Step(d)) && d < 0x4000000
  {
  }

  lemma UndoStep26(d: bv32)
    requires Step(d) < 0x4000000
    ensures d == Double(Step(d)) && d < 0x8000000
  {
  }

  lemma UndoStep27(d: bv32)
    requires Step(d) < 0x8000000
    ensures d == Double(Step(d)) && d < 0x10000000
  {
  }

  lemma UndoStep28(d: bv32)
    requires Step(d) < 0x10000000
    ensures d == Double(Step(d)) && d < 0x20000000
  {
  }

  lemma UndoStep29(d: bv32)
    requires Step(d) < 0x20000000
    ensures d == Double(Step(d)) && d < 0x40000000
  {
  }

  lemma UndoStep30(d: bv32)
    requires Step(d) < 0x40000000
    ensures d == Double(Step(d)) && d < 0x80000000
  {
  }

  lemma UndoStep31(d: bv32)
    requires Step(d) < 0x80000000
    ensures d == Double(Step(d))
  {
  }

  lemma EightDoubles(e: bv32)
    ensures Double(Double(Double(Double(Double(Double(Double(Double(e)))))))) == MakeRoom(e)
  {
  }

  /** Eight steps that leave the highest byte zero were eight plain shifts. */
  lemma StepsReversible(d: bv32)
    requires EightSteps(d) < 0x1000000
    ensures d == MakeRoom(EightSteps(d))
  {
    hide Step; hide MakeRoom; hide Double;
    var d1 := Step(d);
    var d2 := Step(d1);
    var d3 := Step(d2);
    var d4 := Step(d3);
    var d5 := Step(d4);
    var d6 := Step(d5);
    var d7 := Step(d6);
    UndoStep24(d7);
    UndoStep25(d6);
    UndoStep26(d5);
    UndoStep27(d4);
    UndoStep28(d3);
    UndoStep29(d2);
    UndoStep30(d1);
    UndoStep31(d);
    EightDoubles(Step(d7));
  }

  /** Up to four bytes as a word, the first in the lowest place. */
  function Word(x: Bytes): bv32
    decreases |x|
  {
    if x == [] then 0 else Xor(Extend(x[0]), MakeRoom(Word(x[1..])))
  }

  /** d is less than 2 to the power of 8 * n. */
  predicate Below(n: nat, d: bv32) {
    match n
    case 0 => d == 0
    case 1 => d < 0x100
    case 2 => d < 0x10000
    case 3 => d < 0x1000000
    case _ => true
  }

  lemma BelowShifted(n: nat, a: bv8, c: bv32)
    requires n < 4 && Below(n, c)
    ensures Below(n + 1, Xor(Extend(a), MakeRoom(c)))
  {
    match n
    case 0 =>
    case 1 =>
    case 2 =>
    case 3 =>
  }

  lemma {:induction false} WordBelow(x: Bytes)
    requires |x| <= 4
    ensures Below(|x|, Word(x))
    decreases |x|
  {
    hide Below; hide Xor; hide Extend; hide MakeRoom;
    if x == [] {
      NothingBelow();
    } else {
      WordBelow(x[1..]);
      BelowShifted(|x| - 1, x[0], Word(x[1..]));
    }
  }

  lemma NothingBelow()
    ensures Below(0, 0)
  {
  }

  lemma XorBelow(n: nat, a: bv32, b: bv32)
    requires n < 4 && Below(n, a) && Below(n, b)
    ensures Xor(a, b) < 0x1000000
  {
    match n
    case 0 =>
    case 1 =>
    case 2 =>
    case 3 =>
  }

  lemma SplitWord(a: bv8, b: bv8, n: nat, c: bv32, d: bv32)
    requires n < 4 && Below(n, c) && Below(n, d)
    requires Xor(Extend(a), MakeRoom(c)) == Xor(Extend(b), MakeRoom(d))
    ensures a == b && c == d
  {
    match n
    case 0 =>
    case 1 =>
    case 2 =>
    case 3 =>
  }

  lemma {:induction false} WordInjective(x: Bytes, y: Bytes)
    requires |x| == |y| <= 4 && Word(x) == Word(y)
    ensures x == y
    decreases |x|
  {
    hide Below; hide Xor; hide Extend; hide MakeRoom;
    if x != [] {
      WordBelow(x[1..]);
      WordBelow(y[1..]);
      SplitWord(x[0], y[0], |x| - 1, Word(x[1..]), Word(y[1..]));
      WordInjective(x[1..], y[1..]);
      assert x == [x[0]] + x[1..] && y == [y[0]] + y[1..];
    }
  }

  lemma Rearranged(r: bv32, s: bv32, a: bv32, b: bv32, c: bv32, d: bv32)
    requires Xor(Xor(r, a), Xor(s, b)) == Xor(c, d)
    ensures Xor(r, s) == Xor(Xor(a, c), Xor(b, d))
  {
    hide Xor;
    XorMiddle(r, a, s, b);
    XorMiddle(a, c, b, d);
    XorAssoc(Xor(r, s), Xor(a, b), Xor(a, b));
    XorSelf(Xor(a, b));
    XorSelf(Xor(r, s));
    XorComm(Xor(a, b), Xor(c, d));
  }

  /** Registers that meet after up to four bytes were as far apart as those bytes are. */
  lemma {:induction false} Meeting(r: bv32, s: bv32, x: Bytes, y: Bytes)
    requires |x| == |y| <= 4 && Register(r, x) == Register(s, y)
    ensures Xor(r, s) == Xor(Word(x), Word(y))
    decreases |x|
  {
    hide EightSteps; hide Xor; hide Extend; hide MakeRoom; hide Below;
    if x == [] {
      XorSelf(r);
      XorSelf(0);
    } else {
      var r', s' := Xor(r, Extend(x[0])), Xor(s, Extend(y[0]));
      var u, v := Word(x[1..]), Word(y[1..]);
      Meeting(EightSteps(r'), EightSteps(s'), x[1..], y[1..]);
      StepsLinear(r', s');
      WordBelow(x[1..]);
      WordBelow(y[1..]);
      XorBelow(|x| - 1, u, v);
      StepsReversible(Xor(r', s'));
      MakeRoomXor(u, v);
      Rearranged(r, s, Extend(x[0]), Extend(y[0]), MakeRoom(u), MakeRoom(v));
    }
  }

  /** The same bytes keep different registers apart. */
  lemma {:induction false} SameSuffix(r: bv32, s: bv32, x: Bytes)
    requires Register(r, x) == Register(s, x)
    ensures r == s
    decreases |x|
  {
    hide EightSteps; hide Xor; hide Extend;
    if x != [] {
      var b := Extend(x[0]);
      SameSuffix(EightSteps(Xor(r, b)), EightSteps(Xor(s, b)), x[1..]);
      StepsInjective(Xor(r, b), Xor(s, b));
      XorCancel(r, s, b);
    }
  }

  /** Main result: strings that differ only within four consecutive bytes have different CRCs. */
  lemma BurstDetected(before: Bytes, x: Bytes, y: Bytes, after: Bytes)
    requires |x| == |y| <= 4 && x != y
    ensures Crc32(before + x + after) != Crc32(before + y + after)
  {
    hide EightSteps; hide Word; hide Register; hide Xor;
    var r := Register(0xffffffff, before);
    RegisterAppend(0xffffffff, before + x, after);
    RegisterAppend(0xffffffff, before, x);
    RegisterAppend(0xffffffff, before + y, after);
    RegisterAppend(0xffffffff, before, y);
    if Crc32(before + x + after) == Crc32(before + y + after) {
      XorCancel(Register(0xffffffff, before + x + after), Register(0xffffffff, before + y + after), 0xffffffff);
      SameSuffix(Register(r, x), Register(r, y), after);
      Meeting(r, r, x, y);
      XorSelf(r);
      XorZeroSame(Word(x), Word(y));
      WordInjective(x, y);
    }
  }
}
