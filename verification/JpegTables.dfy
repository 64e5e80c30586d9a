/** The four standard Huffman tables: the counts and values written to the DHT segment,
    and the code tables the encoder uses. */
module JpegTables {

  datatype Dht = DcLum | DcChrom | AcLum | AcChrom

  /** A code and its length in bits; length 0 marks a symbol without a code. */
  datatype Entry = Entry(code: nat, len: nat)

  /** BITS: how many codes have each length. */
  function Count(d: Dht, len: nat): nat {
    match d
    case DcLum => DcLumCount(len)
    case DcChrom => DcChromCount(len)
    case AcLum => AcLumCount(len)
    case AcChrom => AcChromCount(len)
  }

  /** `std_dc_luminance_nrcodes` */
  function DcLumCount(len: nat): nat {
    match len
    case 2 => 1 case 3 => 5 case 4 => 1 case 5 => 1 case 6 => 1 case 7 => 1 case 8 => 1 case 9 => 1
    case _ => 0
  }

  /** `std_dc_chrominance_nrcodes` */
  function DcChromCount(len: nat): nat {
    match len
    case 2 => 3 case 3 => 1 case 4 => 1 case 5 => 1 case 6 => 1 case 7 => 1 case 8 => 1 case 9 => 1 case 10 => 1
    case 11 => 1
    case _ => 0
  }

  /** `std_ac_luminance_nrcodes` */
  function AcLumCount(len: nat): nat {
    match len
    case 2 => 2 case 3 => 1 case 4 => 3 case 5 => 3 case 6 => 2 case 7 => 4 case 8 => 3 case 9 => 5 case 10 => 5
    case 11 => 4 case 12 => 4 case 15 => 1 case 16 => 125
    case _ => 0
  }

  /** `std_ac_chrominance_nrcodes` */
  function AcChromCount(len: nat): nat {
    match len
    case 2 => 2 case 3 => 1 case 4 => 2 case 5 => 4 case 6 => 4 case 7 => 3 case 8 => 4 case 9 => 7 case 10 => 5
    case 11 => 4 case 12 => 4 case 14 => 1 case 15 => 2 case 16 => 119
    case _ => 0
  }

  /** MINCODE: the first code of each length. */
  function MinCode(d: Dht, len: nat): nat {
    match d
    case DcLum => DcLumMinCode(len)
    case DcChrom => DcChromMinCode(len)
    case AcLum => AcLumMinCode(len)
    case AcChrom => AcChromMinCode(len)
  }

  function DcLumMinCode(len: nat): nat {
    match len
    case 3 => 2 case 4 => 14 case 5 => 30 case 6 => 62 case 7 => 126 case 8 => 254 case 9 => 510 case 10 => 1022
    case 11 => 2044 case 12 => 4088 case 13 => 8176 case 14 => 16352 case 15 => 32704 case 16 => 65408
    case _ => 0
  }

  function DcChromMinCode(len: nat): nat {
    match len
    case 3 => 6 case 4 => 14 case 5 => 30 case 6 => 62 case 7 => 126 case 8 => 254 case 9 => 510 case 10 => 1022
    case 11 => 2046 case 12 => 4094 case 13 => 8188 case 14 => 16376 case 15 => 32752 case 16 => 65504
    case _ => 0
  }

  function AcLumMinCode(len: nat): nat {
    match len
    case 3 => 4 case 4 => 10 case 5 => 26 case 6 => 58 case 7 => 120 case 8 => 248 case 9 => 502 case 10 => 1014
    case 11 => 2038 case 12 => 4084 case 13 => 8176 case 14 => 16352 case 15 => 32704 case 16 => 65410
    case _ => 0
  }

  function AcChromMinCode(len: nat): nat {
    match len
    case 3 => 4 case 4 => 10 case 5 => 24 case 6 => 56 case 7 => 120 case 8 => 246 case 9 => 500 case 10 => 1014
    case 11 => 2038 case 12 => 4084 case 13 => 8176 case 14 => 16352 case 15 => 32706 case 16 => 65416
    case _ => 0
  }

  /** VALPTR: where the symbols of each length start. */
  function ValPtr(d: Dht, len: nat): nat {
    match d
    case DcLum => DcLumValPtr(len)
    case DcChrom => DcChromValPtr(len)
    case AcLum => AcLumValPtr(len)
    case AcChrom => AcChromValPtr(len)
  }

  function DcLumValPtr(len: nat): nat {
    match len
    case 3 => 1 case 4 => 6 case 5 => 7 case 6 => 8 case 7 => 9 case 8 => 10 case 9 => 11 case 10 => 12 case 11 => 12
    case 12 => 12 case 13 => 12 case 14 => 12 case 15 => 12 case 16 => 12
    case _ => 0
  }

  function DcChromValPtr(len: nat): nat {
    match len
    case 3 => 3 case 4 => 4 case 5 => 5 case 6 => 6 case 7 => 7 case 8 => 8 case 9 => 9 case 10 => 10 case 11 => 11
    case 12 => 12 case 13 => 12 case 14 => 12 case 15 => 12 case 16 => 12
    case _ => 0
  }

  function AcLumValPtr(len: nat): nat {
    match len
    case 3 => 2 case 4 => 3 case 5 => 6 case 6 => 9 case 7 => 11 case 8 => 15 case 9 => 18 case 10 => 23 case 11 => 28
    case 12 => 32 case 13 => 36 case 14 => 36 case 15 => 36 case 16 => 37
    case _ => 0
  }

  function AcChromValPtr(len: nat): nat {
    match len
    case 3 => 2 case 4 => 3 case 5 => 5 case 6 => 9 case 7 => 13 case 8 => 16 case 9 => 20 case 10 => 27 case 11 => 32
    case 12 => 36 case 13 => 40 case 14 => 40 case 15 => 41 case 16 => 43
    case _ => 0
  }

  /** Codes and symbol positions are generated from the counts (Annex C of ITU-T T.81). */
  lemma Generated(d: Dht, len: nat)
    requires 1 <= len < 16
    ensures MinCode(d, 1) == 0 && MinCode(d, len + 1) == 2 * (MinCode(d, len) + Count(d, len))
    ensures ValPtr(d, 1) == 0 && ValPtr(d, len + 1) == ValPtr(d, len) + Count(d, len)
  {
  }

  /** No code overflows its length. */
  lemma Room(d: Dht)
    ensures MinCode(d, 16) + Count(d, 16) <= 65536
  {
  }

  /** HUFFVAL: the symbols in the order of their codes; row and column of sixteen. */
  function Value(d: Dht, k: nat): nat {
    match d
    case DcLum => k
    case DcChrom => k
    case AcLum => AcLumValue(k / 16, k % 16)
    case AcChrom => AcChromValue(k / 16, k % 16)
  }

  /** `std_ac_luminance_values` */
  function AcLumValue(row: nat, col: nat): nat {
    match row
    case 0 => (match col
      case 0 => 0x01 case 1 => 0x02 case 2 => 0x03 case 3 => 0x00 case 4 => 0x04 case 5 => 0x11 case 6 => 0x05
      case 7 => 0x12 case 8 => 0x21 case 9 => 0x31 case 10 => 0x41 case 11 => 0x06 case 12 => 0x13 case 13 => 0x51
      case 14 => 0x61 case 15 => 0x07 case _ => 0)
    case 1 => (match col
      case 0 => 0x22 case 1 => 0x71 case 2 => 0x14 case 3 => 0x32 case 4 => 0x81 case 5 => 0x91 case 6 => 0xa1
      case 7 => 0x08 case 8 => 0x23 case 9 => 0x42 case 10 => 0xb1 case 11 => 0xc1 case 12 => 0x15 case 13 => 0x52
      case 14 => 0xd1 case 15 => 0xf0 case _ => 0)
    case 2 => (match col
      case 0 => 0x24 case 1 => 0x33 case 2 => 0x62 case 3 => 0x72 case 4 => 0x82 case 5 => 0x09 case 6 => 0x0a
      case 7 => 0x16 case 8 => 0x17 case 9 => 0x18 case 10 => 0x19 case 11 => 0x1a case 12 => 0x25 case 13 => 0x26
      case 14 => 0x27 case 15 => 0x28 case _ => 0)
    case 3 => (match col
      case 0 => 0x29 case 1 => 0x2a case 2 => 0x34 case 3 => 0x35 case 4 => 0x36 case 5 => 0x37 case 6 => 0x38
      case 7 => 0x39 case 8 => 0x3a case 9 => 0x43 case 10 => 0x44 case 11 => 0x45 case 12 => 0x46 case 13 => 0x47
      case 14 => 0x48 case 15 => 0x49 case _ => 0)
    case 4 => (match col
      case 0 => 0x4a case 1 => 0x53 case 2 => 0x54 case 3 => 0x55 case 4 => 0x56 case 5 => 0x57 case 6 => 0x58
      case 7 => 0x59 case 8 => 0x5a case 9 => 0x63 case 10 => 0x64 case 11 => 0x65 case 12 => 0x66 case 13 => 0x67
      case 14 => 0x68 case 15 => 0x69 case _ => 0)
    case 5 => (match col
      case 0 => 0x6a case 1 => 0x73 case 2 => 0x74 case 3 => 0x75 case 4 => 0x76 case 5 => 0x77 case 6 => 0x78
      case 7 => 0x79 case 8 => 0x7a case 9 => 0x83 case 10 => 0x84 case 11 => 0x85 case 12 => 0x86 case 13 => 0x87
      case 14 => 0x88 case 15 => 0x89 case _ => 0)
    case 6 => (match col
      case 0 => 0x8a case 1 => 0x92 case 2 => 0x93 case 3 => 0x94 case 4 => 0x95 case 5 => 0x96 case 6 => 0x97
      case 7 => 0x98 case 8 => 0x99 case 9 => 0x9a case 10 => 0xa2 case 11 => 0xa3 case 12 => 0xa4 case 13 => 0xa5
      case 14 => 0xa6 case 15 => 0xa7 case _ => 0)
    case 7 => (match col
      case 0 => 0xa8 case 1 => 0xa9 case 2 => 0xaa case 3 => 0xb2 case 4 => 0xb3 case 5 => 0xb4 case 6 => 0xb5
      case 7 => 0xb6 case 8 => 0xb7 case 9 => 0xb8 case 10 => 0xb9 case 11 => 0xba case 12 => 0xc2 case 13 => 0xc3
      case 14 => 0xc4 case 15 => 0xc5 case _ => 0)
    case 8 => (match col
      case 0 => 0xc6 case 1 => 0xc7 case 2 => 0xc8 case 3 => 0xc9 case 4 => 0xca case 5 => 0xd2 case 6 => 0xd3
      case 7 => 0xd4 case 8 => 0xd5 case 9 => 0xd6 case 10 => 0xd7 case 11 => 0xd8 case 12 => 0xd9 case 13 => 0xda
      case 14 => 0xe1 case 15 => 0xe2 case _ => 0)
    case 9 => (match col
      case 0 => 0xe3 case 1 => 0xe4 case 2 => 0xe5 case 3 => 0xe6 case 4 => 0xe7 case 5 => 0xe8 case 6 => 0xe9
      case 7 => 0xea case 8 => 0xf1 case 9 => 0xf2 case 10 => 0xf3 case 11 => 0xf4 case 12 => 0xf5 case 13 => 0xf6
      case 14 => 0xf7 case 15 => 0xf8 case _ => 0)
    case 10 => (match col
      case 0 => 0xf9 case 1 => 0xfa case _ => 0)
    case _ => 0
  }

  /** `std_ac_chrominance_values` */
  function AcChromValue(row: nat, col: nat): nat {
    match row
    case 0 => (match col
      case 0 => 0x00 case 1 => 0x01 case 2 => 0x02 case 3 => 0x03 case 4 => 0x11 case 5 => 0x04 case 6 => 0x05
      case 7 => 0x21 case 8 => 0x31 case 9 => 0x06 case 10 => 0x12 case 11 => 0x41 case 12 => 0x51 case 13 => 0x07
      case 14 => 0x61 case 15 => 0x71 case _ => 0)
    case 1 => (match col
      case 0 => 0x13 case 1 => 0x22 case 2 => 0x32 case 3 => 0x81 case 4 => 0x08 case 5 => 0x14 case 6 => 0x42
      case 7 => 0x91 case 8 => 0xa1 case 9 => 0xb1 case 10 => 0xc1 case 11 => 0x09 case 12 => 0x23 case 13 => 0x33
      case 14 => 0x52 case 15 => 0xf0 case _ => 0)
    case 2 => (match col
      case 0 => 0x15 case 1 => 0x62 case 2 => 0x72 case 3 => 0xd1 case 4 => 0x0a case 5 => 0x16 case 6 => 0x24
      case 7 => 0x34 case 8 => 0xe1 case 9 => 0x25 case 10 => 0xf1 case 11 => 0x17 case 12 => 0x18 case 13 => 0x19
      case 14 => 0x1a case 15 => 0x26 case _ => 0)
    case 3 => (match col
      case 0 => 0x27 case 1 => 0x28 case 2 => 0x29 case 3 => 0x2a case 4 => 0x35 case 5 => 0x36 case 6 => 0x37
      case 7 => 0x38 case 8 => 0x39 case 9 => 0x3a case 10 => 0x43 case 11 => 0x44 case 12 => 0x45 case 13 => 0x46
      case 14 => 0x47 case 15 => 0x48 case _ => 0)
    case 4 => (match col
      case 0 => 0x49 case 1 => 0x4a case 2 => 0x53 case 3 => 0x54 case 4 => 0x55 case 5 => 0x56 case 6 => 0x57
      case 7 => 0x58 case 8 => 0x59 case 9 => 0x5a case 10 => 0x63 case 11 => 0x64 case 12 => 0x65 case 13 => 0x66
      case 14 => 0x67 case 15 => 0x68 case _ => 0)
    case 5 => (match col
      case 0 => 0x69 case 1 => 0x6a case 2 => 0x73 case 3 => 0x74 case 4 => 0x75 case 5 => 0x76 case 6 => 0x77
      case 7 => 0x78 case 8 => 0x79 case 9 => 0x7a case 10 => 0x82 case 11 => 0x83 case 12 => 0x84 case 13 => 0x85
      case 14 => 0x86 case 15 => 0x87 case _ => 0)
    case 6 => (match col
      case 0 => 0x88 case 1 => 0x89 case 2 => 0x8a case 3 => 0x92 case 4 => 0x93 case 5 => 0x94 case 6 => 0x95
      case 7 => 0x96 case 8 => 0x97 case 9 => 0x98 case 10 => 0x99 case 11 => 0x9a case 12 => 0xa2 case 13 => 0xa3
      case 14 => 0xa4 case 15 => 0xa5 case _ => 0)
    case 7 => (match col
      case 0 => 0xa6 case 1 => 0xa7 case 2 => 0xa8 case 3 => 0xa9 case 4 => 0xaa case 5 => 0xb2 case 6 => 0xb3
      case 7 => 0xb4 case 8 => 0xb5 case 9 => 0xb6 case 10 => 0xb7 case 11 => 0xb8 case 12 => 0xb9 case 13 => 0xba
      case 14 => 0xc2 case 15 => 0xc3 case _ => 0)
    case 8 => (match col
      case 0 => 0xc4 case 1 => 0xc5 case 2 => 0xc6 case 3 => 0xc7 case 4 => 0xc8 case 5 => 0xc9 case 6 => 0xca
      case 7 => 0xd2 case 8 => 0xd3 case 9 => 0xd4 case 10 => 0xd5 case 11 => 0xd6 case 12 => 0xd7 case 13 => 0xd8
      case 14 => 0xd9 case 15 => 0xda case _ => 0)
    case 9 => (match col
      case 0 => 0xe2 case 1 => 0xe3 case 2 => 0xe4 case 3 => 0xe5 case 4 => 0xe6 case 5 => 0xe7 case 6 => 0xe8
      case 7 => 0xe9 case 8 => 0xea case 9 => 0xf2 case 10 => 0xf3 case 11 => 0xf4 case 12 => 0xf5 case 13 => 0xf6
      case 14 => 0xf7 case 15 => 0xf8 case _ => 0)
    case 10 => (match col
      case 0 => 0xf9 case 1 => 0xfa case _ => 0)
    case _ => 0
  }

  /** The encoder's table for d. */
  function Ht(d: Dht, sym: nat): Entry {
    match d
    case DcLum => YDC_HT(sym)
    case DcChrom => UVDC_HT(sym)
    case AcLum => YAC_HT(sym / 16, sym % 16)
    case AcChrom => UVAC_HT(sym / 16, sym % 16)
  }

  function YDC_HT(sym: nat): Entry {
    match sym
    case 0 => Entry(0, 2) case 1 => Entry(2, 3) case 2 => Entry(3, 3) case 3 => Entry(4, 3) case 4 => Entry(5, 3)
    case 5 => Entry(6, 3) case 6 => Entry(14, 4) case 7 => Entry(30, 5) case 8 => Entry(62, 6) case 9 => Entry(126, 7)
    case 10 => Entry(254, 8) case 11 => Entry(510, 9)
    case _ => Entry(0, 0)
  }

  function UVDC_HT(sym: nat): Entry {
    match sym
    case 0 => Entry(0, 2) case 1 => Entry(1, 2) case 2 => Entry(2, 2) case 3 => Entry(6, 3) case 4 => Entry(14, 4)
    case 5 => Entry(30, 5) case 6 => Entry(62, 6) case 7 => Entry(126, 7) case 8 => Entry(254, 8)
    case 9 => Entry(510, 9) case 10 => Entry(1022, 10) case 11 => Entry(2046, 11)
    case _ => Entry(0, 0)
  }

  function YAC_HT(run: nat, size: nat): Entry {
    match run
    case 0 => (match size
      case 0 => Entry(10, 4) case 1 => Entry(0, 2) case 2 => Entry(1, 2) case 3 => Entry(4, 3) case 4 => Entry(11, 4)
      case 5 => Entry(26, 5) case 6 => Entry(120, 7) case 7 => Entry(248, 8) case 8 => Entry(1014, 10)
      case 9 => Entry(65410, 16) case 10 => Entry(65411, 16) case _ => Entry(0, 0))
    case 1 => (match size
      case 1 => Entry(12, 4) case 2 => Entry(27, 5) case 3 => Entry(121, 7) case 4 => Entry(502, 9)
      case 5 => Entry(2038, 11) case 6 => Entry(65412, 16) case 7 => Entry(65413, 16) case 8 => Entry(65414, 16)
      case 9 => Entry(65415, 16) case 10 => Entry(65416, 16) case _ => Entry(0, 0))
    case 2 => (match size
      case 1 => Entry(28, 5) case 2 => Entry(249, 8) case 3 => Entry(1015, 10) case 4 => Entry(4084, 12)
      case 5 => Entry(65417, 16) case 6 => Entry(65418, 16) case 7 => Entry(65419, 16) case 8 => Entry(65420, 16)
      case 9 => Entry(65421, 16) case 10 => Entry(65422, 16) case _ => Entry(0, 0))
    case 3 => (match size
      case 1 => Entry(58, 6) case 2 => Entry(503, 9) case 3 => Entry(4085, 12) case 4 => Entry(65423, 16)
      case 5 => Entry(65424, 16) case 6 => Entry(65425, 16) case 7 => Entry(65426, 16) case 8 => Entry(65427, 16)
      case 9 => Entry(65428, 16) case 10 => Entry(65429, 16) case _ => Entry(0, 0))
    case 4 => (match size
      case 1 => Entry(59, 6) case 2 => Entry(1016, 10) case 3 => Entry(65430, 16) case 4 => Entry(65431, 16)
      case 5 => Entry(65432, 16) case 6 => Entry(65433, 16) case 7 => Entry(65434, 16) case 8 => Entry(65435, 16)
      case 9 => Entry(65436, 16) case 10 => Entry(65437, 16) case _ => Entry(0, 0))
    case 5 => (match size
      case 1 => Entry(122, 7) case 2 => Entry(2039, 11) case 3 => Entry(65438, 16) case 4 => Entry(65439, 16)
      case 5 => Entry(65440, 16) case 6 => Entry(65441, 16) case 7 => Entry(65442, 16) case 8 => Entry(65443, 16)
      case 9 => Entry(65444, 16) case 10 => Entry(65445, 16) case _ => Entry(0, 0))
    case 6 => (match size
      case 1 => Entry(123, 7) case 2 => Entry(4086, 12) case 3 => Entry(65446, 16) case 4 => Entry(65447, 16)
      case 5 => Entry(65448, 16) case 6 => Entry(65449, 16) case 7 => Entry(65450, 16) case 8 => Entry(65451, 16)
      case 9 => Entry(65452, 16) case 10 => Entry(65453, 16) case _ => Entry(0, 0))
    case 7 => (match size
      case 1 => Entry(250, 8) case 2 => Entry(4087, 12) case 3 => Entry(65454, 16) case 4 => Entry(65455, 16)
      case 5 => Entry(65456, 16) case 6 => Entry(65457, 16) case 7 => Entry(65458, 16) case 8 => Entry(65459, 16)
      case 9 => Entry(65460, 16) case 10 => Entry(65461, 16) case _ => Entry(0, 0))
    case 8 => (match size
      case 1 => Entry(504, 9) case 2 => Entry(32704, 15) case 3 => Entry(65462, 16) case 4 => Entry(65463, 16)
      case 5 => Entry(65464, 16) case 6 => Entry(65465, 16) case 7 => Entry(65466, 16) case 8 => Entry(65467, 16)
      case 9 => Entry(65468, 16) case 10 => Entry(65469, 16) case _ => Entry(0, 0))
    case 9 => (match size
      case 1 => Entry(505, 9) case 2 => Entry(65470, 16) case 3 => Entry(65471, 16) case 4 => Entry(65472, 16)
      case 5 => Entry(65473, 16) case 6 => Entry(65474, 16) case 7 => Entry(65475, 16) case 8 => Entry(65476, 16)
      case 9 => Entry(65477, 16) case 10 => Entry(65478, 16) case _ => Entry(0, 0))
    case 10 => (match size
      case 1 => Entry(506, 9) case 2 => Entry(65479, 16) case 3 => Entry(65480, 16) case 4 => Entry(65481, 16)
      case 5 => Entry(65482, 16) case 6 => Entry(65483, 16) case 7 => Entry(65484, 16) case 8 => Entry(65485, 16)
      case 9 => Entry(65486, 16) case 10 => Entry(65487, 16) case _ => Entry(0, 0))
    case 11 => (match size
      case 1 => Entry(1017, 10) case 2 => Entry(65488, 16) case 3 => Entry(65489, 16) case 4 => Entry(65490, 16)
      case 5 => Entry(65491, 16) case 6 => Entry(65492, 16) case 7 => Entry(65493, 16) case 8 => Entry(65494, 16)
      case 9 => Entry(65495, 16) case 10 => Entry(65496, 16) case _ => Entry(0, 0))
    case 12 => (match size
      case 1 => Entry(1018, 10) case 2 => Entry(65497, 16) case 3 => Entry(65498, 16) case 4 => Entry(65499, 16)
      case 5 => Entry(65500, 16) case 6 => Entry(65501, 16) case 7 => Entry(65502, 16) case 8 => Entry(65503, 16)
      case 9 => Entry(65504, 16) case 10 => Entry(65505, 16) case _ => Entry(0, 0))
    case 13 => (match size
      case 1 => Entry(2040, 11) case 2 => Entry(65506, 16) case 3 => Entry(65507, 16) case 4 => Entry(65508, 16)
      case 5 => Entry(65509, 16) case 6 => Entry(65510, 16) case 7 => Entry(65511, 16) case 8 => Entry(65512, 16)
      case 9 => Entry(65513, 16) case 10 => Entry(65514, 16) case _ => Entry(0, 0))
    case 14 => (match size
      case 1 => Entry(65515, 16) case 2 => Entry(65516, 16) case 3 => Entry(65517, 16) case 4 => Entry(65518, 16)
      case 5 => Entry(65519, 16) case 6 => Entry(65520, 16) case 7 => Entry(65521, 16) case 8 => Entry(65522, 16)
      case 9 => Entry(65523, 16) case 10 => Entry(65524, 16) case _ => Entry(0, 0))
    case 15 => (match size
      case 0 => Entry(2041, 11) case 1 => Entry(65525, 16) case 2 => Entry(65526, 16) case 3 => Entry(65527, 16)
      case 4 => Entry(65528, 16) case 5 => Entry(65529, 16) case 6 => Entry(65530, 16) case 7 => Entry(65531, 16)
      case 8 => Entry(65532, 16) case 9 => Entry(65533, 16) case 10 => Entry(65534, 16) case _ => Entry(0, 0))
    case _ => Entry(0, 0)
  }

  function UVAC_HT(run: nat, size: nat): Entry {
    match run
    case 0 => (match size
      case 0 => Entry(0, 2) case 1 => Entry(1, 2) case 2 => Entry(4, 3) case 3 => Entry(10, 4) case 4 => Entry(24, 5)
      case 5 => Entry(25, 5) case 6 => Entry(56, 6) case 7 => Entry(120, 7) case 8 => Entry(500, 9)
      case 9 => Entry(1014, 10) case 10 => Entry(4084, 12) case _ => Entry(0, 0))
    case 1 => (match size
      case 1 => Entry(11, 4) case 2 => Entry(57, 6) case 3 => Entry(246, 8) case 4 => Entry(501, 9)
      case 5 => Entry(2038, 11) case 6 => Entry(4085, 12) case 7 => Entry(65416, 16) case 8 => Entry(65417, 16)
      case 9 => Entry(65418, 16) case 10 => Entry(65419, 16) case _ => Entry(0, 0))
    case 2 => (match size
      case 1 => Entry(26, 5) case 2 => Entry(247, 8) case 3 => Entry(1015, 10) case 4 => Entry(4086, 12)
      case 5 => Entry(32706, 15) case 6 => Entry(65420, 16) case 7 => Entry(65421, 16) case 8 => Entry(65422, 16)
      case 9 => Entry(65423, 16) case 10 => Entry(65424, 16) case _ => Entry(0, 0))
    case 3 => (match size
      case 1 => Entry(27, 5) case 2 => Entry(248, 8) case 3 => Entry(1016, 10) case 4 => Entry(4087, 12)
      case 5 => Entry(65425, 16) case 6 => Entry(65426, 16) case 7 => Entry(65427, 16) case 8 => Entry(65428, 16)
      case 9 => Entry(65429, 16) case 10 => Entry(65430, 16) case _ => Entry(0, 0))
    case 4 => (match size
      case 1 => Entry(58, 6) case 2 => Entry(502, 9) case 3 => Entry(65431, 16) case 4 => Entry(65432, 16)
      case 5 => Entry(65433, 16) case 6 => Entry(65434, 16) case 7 => Entry(65435, 16) case 8 => Entry(65436, 16)
      case 9 => Entry(65437, 16) case 10 => Entry(65438, 16) case _ => Entry(0, 0))
    case 5 => (match size
      case 1 => Entry(59, 6) case 2 => Entry(1017, 10) case 3 => Entry(65439, 16) case 4 => Entry(65440, 16)
      case 5 => Entry(65441, 16) case 6 => Entry(65442, 16) case 7 => Entry(65443, 16) case 8 => Entry(65444, 16)
      case 9 => Entry(65445, 16) case 10 => Entry(65446, 16) case _ => Entry(0, 0))
    case 6 => (match size
      case 1 => Entry(121, 7) case 2 => Entry(2039, 11) case 3 => Entry(65447, 16) case 4 => Entry(65448, 16)
      case 5 => Entry(65449, 16) case 6 => Entry(65450, 16) case 7 => Entry(65451, 16) case 8 => Entry(65452, 16)
      case 9 => Entry(65453, 16) case 10 => Entry(65454, 16) case _ => Entry(0, 0))
    case 7 => (match size
      case 1 => Entry(122, 7) case 2 => Entry(2040, 11) case 3 => Entry(65455, 16) case 4 => Entry(65456, 16)
      case 5 => Entry(65457, 16) case 6 => Entry(65458, 16) case 7 => Entry(65459, 16) case 8 => Entry(65460, 16)
      case 9 => Entry(65461, 16) case 10 => Entry(65462, 16) case _ => Entry(0, 0))
    case 8 => (match size
      case 1 => Entry(249, 8) case 2 => Entry(65463, 16) case 3 => Entry(65464, 16) case 4 => Entry(65465, 16)
      case 5 => Entry(65466, 16) case 6 => Entry(65467, 16) case 7 => Entry(65468, 16) case 8 => Entry(65469, 16)
      case 9 => Entry(65470, 16) case 10 => Entry(65471, 16) case _ => Entry(0, 0))
    case 9 => (match size
      case 1 => Entry(503, 9) case 2 => Entry(65472, 16) case 3 => Entry(65473, 16) case 4 => Entry(65474, 16)
      case 5 => Entry(65475, 16) case 6 => Entry(65476, 16) case 7 => Entry(65477, 16) case 8 => Entry(65478, 16)
      case 9 => Entry(65479, 16) case 10 => Entry(65480, 16) case _ => Entry(0, 0))
    case 10 => (match size
      case 1 => Entry(504, 9) case 2 => Entry(65481, 16) case 3 => Entry(65482, 16) case 4 => Entry(65483, 16)
      case 5 => Entry(65484, 16) case 6 => Entry(65485, 16) case 7 => Entry(65486, 16) case 8 => Entry(65487, 16)
      case 9 => Entry(65488, 16) case 10 => Entry(65489, 16) case _ => Entry(0, 0))
    case 11 => (match size
      case 1 => Entry(505, 9) case 2 => Entry(65490, 16) case 3 => Entry(65491, 16) case 4 => Entry(65492, 16)
      case 5 => Entry(65493, 16) case 6 => Entry(65494, 16) case 7 => Entry(65495, 16) case 8 => Entry(65496, 16)
      case 9 => Entry(65497, 16) case 10 => Entry(65498, 16) case _ => Entry(0, 0))
    case 12 => (match size
      case 1 => Entry(506, 9) case 2 => Entry(65499, 16) case 3 => Entry(65500, 16) case 4 => Entry(65501, 16)
      case 5 => Entry(65502, 16) case 6 => Entry(65503, 16) case 7 => Entry(65504, 16) case 8 => Entry(65505, 16)
      case 9 => Entry(65506, 16) case 10 => Entry(65507, 16) case _ => Entry(0, 0))
    case 13 => (match size
      case 1 => Entry(2041, 11) case 2 => Entry(65508, 16) case 3 => Entry(65509, 16) case 4 => Entry(65510, 16)
      case 5 => Entry(65511, 16) case 6 => Entry(65512, 16) case 7 => Entry(65513, 16) case 8 => Entry(65514, 16)
      case 9 => Entry(65515, 16) case 10 => Entry(65516, 16) case _ => Entry(0, 0))
    case 14 => (match size
      case 1 => Entry(16352, 14) case 2 => Entry(65517, 16) case 3 => Entry(65518, 16) case 4 => Entry(65519, 16)
      case 5 => Entry(65520, 16) case 6 => Entry(65521, 16) case 7 => Entry(65522, 16) case 8 => Entry(65523, 16)
      case 9 => Entry(65524, 16) case 10 => Entry(65525, 16) case _ => Entry(0, 0))
    case 15 => (match size
      case 0 => Entry(1018, 10) case 1 => Entry(32707, 15) case 2 => Entry(65526, 16) case 3 => Entry(65527, 16)
      case 4 => Entry(65528, 16) case 5 => Entry(65529, 16) case 6 => Entry(65530, 16) case 7 => Entry(65531, 16)
      case 8 => Entry(65532, 16) case 9 => Entry(65533, 16) case 10 => Entry(65534, 16) case _ => Entry(0, 0))
    case _ => Entry(0, 0)
  }

  /** An entry is the code that the counts and values generate for sym. */
  predicate PlacedAt(d: Dht, sym: nat, e: Entry) {
    1 <= e.len <= 16 && MinCode(d, e.len) <= e.code < MinCode(d, e.len) + Count(d, e.len) &&
    Value(d, ValPtr(d, e.len) + e.code - MinCode(d, e.len)) == sym
  }

  lemma YacLow(run: nat, size: nat)
    requires run < 8 && size < 16 && YAC_HT(run, size).len > 0
    ensures PlacedAt(AcLum, 16 * run + size, YAC_HT(run, size))
  {
  }

  lemma YacHigh(run: nat, size: nat)
    requires 8 <= run && size < 16 && YAC_HT(run, size).len > 0
    ensures PlacedAt(AcLum, 16 * run + size, YAC_HT(run, size))
  {
  }

  lemma UvacLow(run: nat, size: nat)
    requires run < 8 && size < 16 && UVAC_HT(run, size).len > 0
    ensures PlacedAt(AcChrom, 16 * run + size, UVAC_HT(run, size))
  {
  }

  lemma UvacHigh(run: nat, size: nat)
    requires 8 <= run && size < 16 && UVAC_HT(run, size).len > 0
    ensures PlacedAt(AcChrom, 16 * run + size, UVAC_HT(run, size))
  {
  }

  /** The encoder's four tables are the ones a decoder builds from the DHT segment. */
  lemma EncoderTableMatchesDht(d: Dht, sym: nat)
    requires Ht(d, sym).len > 0
    ensures PlacedAt(d, sym, Ht(d, sym))
  {
    hide YAC_HT, UVAC_HT;
    match d {
      case AcLum => if sym < 128 { YacLow(sym / 16, sym % 16); } else { YacHigh(sym / 16, sym % 16); }
      case AcChrom => if sym < 128 { UvacLow(sym / 16, sym % 16); } else { UvacHigh(sym / 16, sym % 16); }
      case _ =>
    }
  }

  /** Every size class up to 11 for DC differences has a code; */
  lemma DcSizesCoded(d: Dht, size: nat)
    requires (d.DcLum? || d.DcChrom?) && size <= 11
    ensures Ht(d, size).len > 0
  {
  }

  /** so has every run up to 15 with a size class up to 10, and the two special symbols. */
  lemma AcSizesCoded(d: Dht, run: nat, size: nat)
    requires (d.AcLum? || d.AcChrom?) && run < 16 && (1 <= size <= 10 || (size == 0 && (run == 0 || run == 15)))
    ensures Ht(d, run * 16 + size).len > 0
  {
    assert (run * 16 + size) / 16 == run && (run * 16 + size) % 16 == size;
  }
}
