/** The lookup table of the DMK analyser's CRC-16, entry by entry. */
module Crc16Table {
  import opened ByteMessages
  import opened Word16

  /** Line `r` of the lookup table, which the program lists eight entries a line. */
  function TableLine(r: nat): (line: seq<bv16>)
    ensures |line| == 8
  {
    if r < 16 then UpperLine(r) else LowerLine(r)
  }

  function UpperLine(r: nat): (line: seq<bv16>)
    ensures |line| == 8
  {
    if r == 0 then [0x0000, 0x1021, 0x2042, 0x3063, 0x4084, 0x50A5, 0x60C6, 0x70E7]
    else if r == 1 then [0x8108, 0x9129, 0xA14A, 0xB16B, 0xC18C, 0xD1AD, 0xE1CE, 0xF1EF]
    else if r == 2 then [0x1231, 0x0210, 0x3273, 0x2252, 0x52B5, 0x4294, 0x72F7, 0x62D6]
    else if r == 3 then [0x9339, 0x8318, 0xB37B, 0xA35A, 0xD3BD, 0xC39C, 0xF3FF, 0xE3DE]
    else if r == 4 then [0x2462, 0x3443, 0x0420, 0x1401, 0x64E6, 0x74C7, 0x44A4, 0x5485]
    else if r == 5 then [0xA56A, 0xB54B, 0x8528, 0x9509, 0xE5EE, 0xF5CF, 0xC5AC, 0xD58D]
    else if r == 6 then [0x3653, 0x2672, 0x1611, 0x0630, 0x76D7, 0x66F6, 0x5695, 0x46B4]
    else if r == 7 then [0xB75B, 0xA77A, 0x9719, 0x8738, 0xF7DF, 0xE7FE, 0xD79D, 0xC7BC]
    else if r == 8 then [0x48C4, 0x58E5, 0x6886, 0x78A7, 0x0840, 0x1861, 0x2802, 0x3823]
    else if r == 9 then [0xC9CC, 0xD9ED, 0xE98E, 0xF9AF, 0x8948, 0x9969, 0xA90A, 0xB92B]
    else if r == 10 then [0x5AF5, 0x4AD4, 0x7AB7, 0x6A96, 0x1A71, 0x0A50, 0x3A33, 0x2A12]
    else if r == 11 then [0xDBFD, 0xCBDC, 0xFBBF, 0xEB9E, 0x9B79, 0x8B58, 0xBB3B, 0xAB1A]
    else if r == 12 then [0x6CA6, 0x7C87, 0x4CE4, 0x5CC5, 0x2C22, 0x3C03, 0x0C60, 0x1C41]
    else if r == 13 then [0xEDAE, 0xFD8F, 0xCDEC, 0xDDCD, 0xAD2A, 0xBD0B, 0x8D68, 0x9D49]
    else if r == 14 then [0x7E97, 0x6EB6, 0x5ED5, 0x4EF4, 0x3E13, 0x2E32, 0x1E51, 0x0E70]
    else [0xFF9F, 0xEFBE, 0xDFDD, 0xCFFC, 0xBF1B, 0xAF3A, 0x9F59, 0x8F78]
  }

  function LowerLine(r: nat): (line: seq<bv16>)
    ensures |line| == 8
  {
    if r == 16 then [0x9188, 0x81A9, 0xB1CA, 0xA1EB, 0xD10C, 0xC12D, 0xF14E, 0xE16F]
    else if r == 17 then [0x1080, 0x00A1, 0x30C2, 0x20E3, 0x5004, 0x4025, 0x7046, 0x6067]
    else if r == 18 then [0x83B9, 0x9398, 0xA3FB, 0xB3DA, 0xC33D, 0xD31C, 0xE37F, 0xF35E]
    else if r == 19 then [0x02B1, 0x1290, 0x22F3, 0x32D2, 0x4235, 0x5214, 0x6277, 0x7256]
    else if r == 20 then [0xB5EA, 0xA5CB, 0x95A8, 0x8589, 0xF56E, 0xE54F, 0xD52C, 0xC50D]
    else if r == 21 then [0x34E2, 0x24C3, 0x14A0, 0x0481, 0x7466, 0x6447, 0x5424, 0x4405]
    else if r == 22 then [0xA7DB, 0xB7FA, 0x8799, 0x97B8, 0xE75F, 0xF77E, 0xC71D, 0xD73C]
    else if r == 23 then [0x26D3, 0x36F2, 0x0691, 0x16B0, 0x6657, 0x7676, 0x4615, 0x5634]
    else if r == 24 then [0xD94C, 0xC96D, 0xF90E, 0xE92F, 0x99C8, 0x89E9, 0xB98A, 0xA9AB]
    else if r == 25 then [0x5844, 0x4865, 0x7806, 0x6827, 0x18C0, 0x08E1, 0x3882, 0x28A3]
    else if r == 26 then [0xCB7D, 0xDB5C, 0xEB3F, 0xFB1E, 0x8BF9, 0x9BD8, 0xABBB, 0xBB9A]
    else if r == 27 then [0x4A75, 0x5A54, 0x6A37, 0x7A16, 0x0AF1, 0x1AD0, 0x2AB3, 0x3A92]
    else if r == 28 then [0xFD2E, 0xED0F, 0xDD6C, 0xCD4D, 0xBDAA, 0xAD8B, 0x9DE8, 0x8DC9]
    else if r == 29 then [0x7C26, 0x6C07, 0x5C64, 0x4C45, 0x3CA2, 0x2C83, 0x1CE0, 0x0CC1]
    else if r == 30 then [0xEF1F, 0xFF3E, 0xCF5D, 0xDF7C, 0xAF9B, 0xBFBA, 0x8FD9, 0x9FF8]
    else [0x6E17, 0x7E36, 0x4E55, 0x5E74, 0x2E93, 0x3EB2, 0x0ED1, 0x1EF0]
  }

  function Lookup(x: byte): bv16 {
    TableLine((x >> 3) as int)[(x & 7) as int]
  }

  /** Eight clocks on a byte in the upper half of the register. */
  function Entry(x: byte): bv16 {
    Advance(Advance(Advance(Advance(Advance(Advance(Advance(Advance(Spread(x)))))))))
  }

  predicate LineRight(line: seq<bv16>, x: byte) {
    && |line| == 8
    && line[0] == Entry(x) && line[1] == Entry(x | 1) && line[2] == Entry(x | 2) && line[3] == Entry(x | 3)
    && line[4] == Entry(x | 4) && line[5] == Entry(x | 5) && line[6] == Entry(x | 6) && line[7] == Entry(x | 7)
  }

  lemma TableLines0()
    ensures LineRight(TableLine(0), 0x00)
    ensures LineRight(TableLine(1), 0x08)
  {
  }

  lemma TableLines2()
    ensures LineRight(TableLine(2), 0x10)
    ensures LineRight(TableLine(3), 0x18)
  {
  }

  lemma TableLines4()
    ensures LineRight(TableLine(4), 0x20)
    ensures LineRight(TableLine(5), 0x28)
  {
  }

  lemma TableLines6()
    ensures LineRight(TableLine(6), 0x30)
    ensures LineRight(TableLine(7), 0x38)
  {
  }

  lemma TableLines8()
    ensures LineRight(TableLine(8), 0x40)
    ensures LineRight(TableLine(9), 0x48)
  {
  }

  lemma TableLines10()
    ensures LineRight(TableLine(10), 0x50)
    ensures LineRight(TableLine(11), 0x58)
  {
  }

  lemma TableLines12()
    ensures LineRight(TableLine(12), 0x60)
    ensures LineRight(TableLine(13), 0x68)
  {
  }

  lemma TableLines14()
    ensures LineRight(TableLine(14), 0x70)
    ensures LineRight(TableLine(15), 0x78)
  {
  }

  lemma TableLines16()
    ensures LineRight(TableLine(16), 0x80)
    ensures LineRight(TableLine(17), 0x88)
  {
  }

  lemma TableLines18()
    ensures LineRight(TableLine(18), 0x90)
    ensures LineRight(TableLine(19), 0x98)
  {
  }

  lemma TableLines20()
    ensures LineRight(TableLine(20), 0xA0)
    ensures LineRight(TableLine(21), 0xA8)
  {
  }

  lemma TableLines22()
    ensures LineRight(TableLine(22), 0xB0)
    ensures LineRight(TableLine(23), 0xB8)
  {
  }

  lemma TableLines24()
    ensures LineRight(TableLine(24), 0xC0)
    ensures LineRight(TableLine(25), 0xC8)
  {
  }

  lemma TableLines26()
    ensures LineRight(TableLine(26), 0xD0)
    ensures LineRight(TableLine(27), 0xD8)
  {
  }

  lemma TableLines28()
    ensures LineRight(TableLine(28), 0xE0)
    ensures LineRight(TableLine(29), 0xE8)
  {
  }

  lemma TableLines30()
    ensures LineRight(TableLine(30), 0xF0)
    ensures LineRight(TableLine(31), 0xF8)
  {
  }

  lemma TableLineRight(r: byte)
    requires r < 32
    ensures LineRight(TableLine(r as int), r << 3)
  {
    hide LineRight, TableLine;
    if r < 16 { TableLineRightUpper(r); } else { TableLineRightLower(r); }
  }

  lemma TableLineRightUpper(r: byte)
    requires r < 16
    ensures LineRight(TableLine(r as int), r << 3)
  {
    hide LineRight, TableLine;
    if r == 0 || r == 1 { TableLines0(); }
    if r == 2 || r == 3 { TableLines2(); }
    if r == 4 || r == 5 { TableLines4(); }
    if r == 6 || r == 7 { TableLines6(); }
    if r == 8 || r == 9 { TableLines8(); }
    if r == 10 || r == 11 { TableLines10(); }
    if r == 12 || r == 13 { TableLines12(); }
    if r == 14 || r == 15 { TableLines14(); }
  }

  lemma TableLineRightLower(r: byte)
    requires 16 <= r < 32
    ensures LineRight(TableLine(r as int), r << 3)
  {
    hide LineRight, TableLine;
    if r == 16 || r == 17 { TableLines16(); }
    if r == 18 || r == 19 { TableLines18(); }
    if r == 20 || r == 21 { TableLines20(); }
    if r == 22 || r == 23 { TableLines22(); }
    if r == 24 || r == 25 { TableLines24(); }
    if r == 26 || r == 27 { TableLines26(); }
    if r == 28 || r == 29 { TableLines28(); }
    if r == 30 || r == 31 { TableLines30(); }
  }

  /** Every table entry is eight clocks on its index. */
  lemma TableRight(x: byte)
    ensures Lookup(x) == Entry(x)
  {
    hide TableLine, Entry;
    var r, k := x >> 3, x & 7;
    TableLineRight(r);
    var line := TableLine(r as int);
    LineAt(line, r << 3, k);
    assert (r << 3) | k == x;
  }

  lemma LineAt(line: seq<bv16>, x: byte, k: byte)
    requires k < 8 && LineRight(line, x)
    ensures line[k as int] == Entry(x | k)
  {
    hide Entry;
    if k == 0 || k == 1 {
    } else if k == 2 || k == 3 {
    } else if k == 4 || k == 5 {
    }
  }
}
