/** The checksum of the entries: the engine's table, its loops, and the continuation of a checksum. */
module Crc32 {
  // Entry 245 of the engine's table is not the one that section 8 of RFC 1952 computes.

  // ---------------------------------------------------------------------------------------------
  // The table, one row for each upper half of the index
  // ---------------------------------------------------------------------------------------------

  function Row0(j: bv8): bv32 {
    if j == 0 then 0x00000000 else if j == 1 then 0x77073096 else
    if j == 2 then 0xEE0E612C else if j == 3 then 0x990951BA else
    if j == 4 then 0x076DC419 else if j == 5 then 0x706AF48F else
    if j == 6 then 0xE963A535 else if j == 7 then 0x9E6495A3 else
    if j == 8 then 0x0EDB8832 else if j == 9 then 0x79DCB8A4 else
    if j == 10 then 0xE0D5E91E else if j == 11 then 0x97D2D988 else
    if j == 12 then 0x09B64C2B else if j == 13 then 0x7EB17CBD else
    if j == 14 then 0xE7B82D07 else 0x90BF1D91
  }

  function Row1(j: bv8): bv32 {
    if j == 0 then 0x1DB71064 else if j == 1 then 0x6AB020F2 else
    if j == 2 then 0xF3B97148 else if j == 3 then 0x84BE41DE else
    if j == 4 then 0x1ADAD47D else if j == 5 then 0x6DDDE4EB else
    if j == 6 then 0xF4D4B551 else if j == 7 then 0x83D385C7 else
    if j == 8 then 0x136C9856 else if j == 9 then 0x646BA8C0 else
    if j == 10 then 0xFD62F97A else if j == 11 then 0x8A65C9EC else
    if j == 12 then 0x14015C4F else if j == 13 then 0x63066CD9 else
    if j == 14 then 0xFA0F3D63 else 0x8D080DF5
  }

  function Row2(j: bv8): bv32 {
    if j == 0 then 0x3B6E20C8 else if j == 1 then 0x4C69105E else
    if j == 2 then 0xD56041E4 else if j == 3 then 0xA2677172 else
    if j == 4 then 0x3C03E4D1 else if j == 5 then 0x4B04D447 else
    if j == 6 then 0xD20D85FD else if j == 7 then 0xA50AB56B else
    if j == 8 then 0x35B5A8FA else if j == 9 then 0x42B2986C else
    if j == 10 then 0xDBBBC9D6 else if j == 11 then 0xACBCF940 else
    if j == 12 then 0x32D86CE3 else if j == 13 then 0x45DF5C75 else
    if j == 14 then 0xDCD60DCF else 0xABD13D59
  }

  function Row3(j: bv8): bv32 {
    if j == 0 then 0x26D930AC else if j == 1 then 0x51DE003A else
    if j == 2 then 0xC8D75180 else if j == 3 then 0xBFD06116 else
    if j == 4 then 0x21B4F4B5 else if j == 5 then 0x56B3C423 else
    if j == 6 then 0xCFBA9599 else if j == 7 then 0xB8BDA50F else
    if j == 8 then 0x2802B89E else if j == 9 then 0x5F058808 else
    if j == 10 then 0xC60CD9B2 else if j == 11 then 0xB10BE924 else
    if j == 12 then 0x2F6F7C87 else if j == 13 then 0x58684C11 else
    if j == 14 then 0xC1611DAB else 0xB6662D3D
  }

  function Row4(j: bv8): bv32 {
    if j == 0 then 0x76DC4190 else if j == 1 then 0x01DB7106 else
    if j == 2 then 0x98D220BC else if j == 3 then 0xEFD5102A else
    if j == 4 then 0x71B18589 else if j == 5 then 0x06B6B51F else
    if j == 6 then 0x9FBFE4A5 else if j == 7 then 0xE8B8D433 else
    if j == 8 then 0x7807C9A2 else if j == 9 then 0x0F00F934 else
    if j == 10 then 0x9609A88E else if j == 11 then 0xE10E9818 else
    if j == 12 then 0x7F6A0DBB else if j == 13 then 0x086D3D2D else
    if j == 14 then 0x91646C97 else 0xE6635C01
  }

  function Row5(j: bv8): bv32 {
    if j == 0 then 0x6B6B51F4 else if j == 1 then 0x1C6C6162 else
    if j == 2 then 0x856530D8 else if j == 3 then 0xF262004E else
    if j == 4 then 0x6C0695ED else if j == 5 then 0x1B01A57B else
    if j == 6 then 0x8208F4C1 else if j == 7 then 0xF50FC457 else
    if j == 8 then 0x65B0D9C6 else if j == 9 then 0x12B7E950 else
    if j == 10 then 0x8BBEB8EA else if j == 11 then 0xFCB9887C else
    if j == 12 then 0x62DD1DDF else if j == 13 then 0x15DA2D49 else
    if j == 14 then 0x8CD37CF3 else 0xFBD44C65
  }

  function Row6(j: bv8): bv32 {
    if j == 0 then 0x4DB26158 else if j == 1 then 0x3AB551CE else
    if j == 2 then 0xA3BC0074 else if j == 3 then 0xD4BB30E2 else
    if j == 4 then 0x4ADFA541 else if j == 5 then 0x3DD895D7 else
    if j == 6 then 0xA4D1C46D else if j == 7 then 0xD3D6F4FB else
    if j == 8 then 0x4369E96A else if j == 9 then 0x346ED9FC else
    if j == 10 then 0xAD678846 else if j == 11 then 0xDA60B8D0 else
    if j == 12 then 0x44042D73 else if j == 13 then 0x33031DE5 else
    if j == 14 then 0xAA0A4C5F else 0xDD0D7CC9
  }

  function Row7(j: bv8): bv32 {
    if j == 0 then 0x5005713C else if j == 1 then 0x270241AA else
    if j == 2 then 0xBE0B1010 else if j == 3 then 0xC90C2086 else
    if j == 4 then 0x5768B525 else if j == 5 then 0x206F85B3 else
    if j == 6 then 0xB966D409 else if j == 7 then 0xCE61E49F else
    if j == 8 then 0x5EDEF90E else if j == 9 then 0x29D9C998 else
    if j == 10 then 0xB0D09822 else if j == 11 then 0xC7D7A8B4 else
    if j == 12 then 0x59B33D17 else if j == 13 then 0x2EB40D81 else
    if j == 14 then 0xB7BD5C3B else 0xC0BA6CAD
  }

  function Row8(j: bv8): bv32 {
    if j == 0 then 0xEDB88320 else if j == 1 then 0x9ABFB3B6 else
    if j == 2 then 0x03B6E20C else if j == 3 then 0x74B1D29A else
    if j == 4 then 0xEAD54739 else if j == 5 then 0x9DD277AF else
    if j == 6 then 0x04DB2615 else if j == 7 then 0x73DC1683 else
    if j == 8 then 0xE3630B12 else if j == 9 then 0x94643B84 else
    if j == 10 then 0x0D6D6A3E else if j == 11 then 0x7A6A5AA8 else
    if j == 12 then 0xE40ECF0B else if j == 13 then 0x9309FF9D else
    if j == 14 then 0x0A00AE27 else 0x7D079EB1
  }

  function Row9(j: bv8): bv32 {
    if j == 0 then 0xF00F9344 else if j == 1 then 0x8708A3D2 else
    if j == 2 then 0x1E01F268 else if j == 3 then 0x6906C2FE else
    if j == 4 then 0xF762575D else if j == 5 then 0x806567CB else
    if j == 6 then 0x196C3671 else if j == 7 then 0x6E6B06E7 else
    if j == 8 then 0xFED41B76 else if j == 9 then 0x89D32BE0 else
    if j == 10 then 0x10DA7A5A else if j == 11 then 0x67DD4ACC else
    if j == 12 then 0xF9B9DF6F else if j == 13 then 0x8EBEEFF9 else
    if j == 14 then 0x17B7BE43 else 0x60B08ED5
  }

  function RowA(j: bv8): bv32 {
    if j == 0 then 0xD6D6A3E8 else if j == 1 then 0xA1D1937E else
    if j == 2 then 0x38D8C2C4 else if j == 3 then 0x4FDFF252 else
    if j == 4 then 0xD1BB67F1 else if j == 5 then 0xA6BC5767 else
    if j == 6 then 0x3FB506DD else if j == 7 then 0x48B2364B else
    if j == 8 then 0xD80D2BDA else if j == 9 then 0xAF0A1B4C else
    if j == 10 then 0x36034AF6 else if j == 11 then 0x41047A60 else
    if j == 12 then 0xDF60EFC3 else if j == 13 then 0xA867DF55 else
    if j == 14 then 0x316E8EEF else 0x4669BE79
  }

  function RowB(j: bv8): bv32 {
    if j == 0 then 0xCB61B38C else if j == 1 then 0xBC66831A else
    if j == 2 then 0x256FD2A0 else if j == 3 then 0x5268E236 else
    if j == 4 then 0xCC0C7795 else if j == 5 then 0xBB0B4703 else
    if j == 6 then 0x220216B9 else if j == 7 then 0x5505262F else
    if j == 8 then 0xC5BA3BBE else if j == 9 then 0xB2BD0B28 else
    if j == 10 then 0x2BB45A92 else if j == 11 then 0x5CB36A04 else
    if j == 12 then 0xC2D7FFA7 else if j == 13 then 0xB5D0CF31 else
    if j == 14 then 0x2CD99E8B else 0x5BDEAE1D
  }

  function RowC(j: bv8): bv32 {
    if j == 0 then 0x9B64C2B0 else if j == 1 then 0xEC63F226 else
    if j == 2 then 0x756AA39C else if j == 3 then 0x026D930A else
    if j == 4 then 0x9C0906A9 else if j == 5 then 0xEB0E363F else
    if j == 6 then 0x72076785 else if j == 7 then 0x05005713 else
    if j == 8 then 0x95BF4A82 else if j == 9 then 0xE2B87A14 else
    if j == 10 then 0x7BB12BAE else if j == 11 then 0x0CB61B38 else
    if j == 12 then 0x92D28E9B else if j == 13 then 0xE5D5BE0D else
    if j == 14 then 0x7CDCEFB7 else 0x0BDBDF21
  }

  function RowD(j: bv8): bv32 {
    if j == 0 then 0x86D3D2D4 else if j == 1 then 0xF1D4E242 else
    if j == 2 then 0x68DDB3F8 else if j == 3 then 0x1FDA836E else
    if j == 4 then 0x81BE16CD else if j == 5 then 0xF6B9265B else
    if j == 6 then 0x6FB077E1 else if j == 7 then 0x18B74777 else
    if j == 8 then 0x88085AE6 else if j == 9 then 0xFF0F6A70 else
    if j == 10 then 0x66063BCA else if j == 11 then 0x11010B5C else
    if j == 12 then 0x8F659EFF else if j == 13 then 0xF862AE69 else
    if j == 14 then 0x616BFFD3 else 0x166CCF45
  }

  function RowE(j: bv8): bv32 {
    if j == 0 then 0xA00AE278 else if j == 1 then 0xD70DD2EE else
    if j == 2 then 0x4E048354 else if j == 3 then 0x3903B3C2 else
    if j == 4 then 0xA7672661 else if j == 5 then 0xD06016F7 else
    if j == 6 then 0x4969474D else if j == 7 then 0x3E6E77DB else
    if j == 8 then 0xAED16A4A else if j == 9 then 0xD9D65ADC else
    if j == 10 then 0x40DF0B66 else if j == 11 then 0x37D83BF0 else
    if j == 12 then 0xA9BCAE53 else if j == 13 then 0xDEBB9EC5 else
    if j == 14 then 0x47B2CF7F else 0x30B5FFE9
  }

  function RowF(j: bv8): bv32 {
    if j == 0 then 0xBDBDF21C else if j == 1 then 0xCABAC28A else
    if j == 2 then 0x53B39330 else if j == 3 then 0x24B4A3A6 else
    if j == 4 then 0xBAD03605 else if j == 5 then 0xCDD706B3 else
    if j == 6 then 0x54DE5729 else if j == 7 then 0x23D967BF else
    if j == 8 then 0xB3667A2E else if j == 9 then 0xC4614AB8 else
    if j == 10 then 0x5D681B02 else if j == 11 then 0x2A6F2B94 else
    if j == 12 then 0xB40BBE37 else if j == 13 then 0xC30C8EA1 else
    if j == 14 then 0x5A05DF1B else 0x2D02EF8D
  }

  /** The table entry at an index. */
  function Entry(i: bv8): bv32 {
    var h, j := i >> 4, i & 0xF;
    if h == 0 then Row0(j) else if h == 1 then Row1(j) else if h == 2 then Row2(j) else if h == 3 then Row3(j) else
    if h == 4 then Row4(j) else if h == 5 then Row5(j) else if h == 6 then Row6(j) else if h == 7 then Row7(j) else
    if h == 8 then Row8(j) else if h == 9 then Row9(j) else if h == 10 then RowA(j) else if h == 11 then RowB(j) else
    if h == 12 then RowC(j) else if h == 13 then RowD(j) else if h == 14 then RowE(j) else RowF(j)
  }

  /** One byte: the table entry of the low byte, xored with the rest of the register. */
  function Step(c: bv32, b: bv8): bv32 {
    Entry(((c ^ (b as bv32)) & 0xFF) as bv8) ^ (c >> 8)
  }

  /** The loop over the message. */
  function Update(c: bv32, msg: seq<bv8>): bv32 {
    if msg == [] then c else Step(Update(c, msg[..|msg| - 1]), msg[|msg| - 1])
  }

  const ONES: bv32 := 0xFFFF_FFFF

  function Complement(c: bv32): bv32 {
    c ^ ONES
  }

  function Checksum(msg: seq<bv8>): bv32 {
    Complement(Update(ONES, msg))
  }

  lemma UpdateOneMore(c: bv32, msg: seq<bv8>, b: bv8)
    ensures Update(c, msg + [b]) == Step(Update(c, msg), b)
  {
    hide Step;
    assert (msg + [b])[..|msg|] == msg;
  }

  /** The loop both functions share. */
  method Loop(start: bv32, data: array<bv8>, length: nat) returns (crc: bv32)
    requires length <= data.Length
    ensures crc == Update(start, data[..length])
  {
    hide Step;
    crc := start;
    for i := 0 to length
      invariant crc == Update(start, data[..i])
    {
      UpdateOneMore(start, data[..i], data[i]);
      assert data[..i] + [data[i]] == data[..i + 1];
      crc := Step(crc, data[i]);
    }
  }

  method Calculate(data: array<bv8>, length: nat) returns (crc: bv32)
    requires length <= data.Length
    ensures crc == Checksum(data[..length])
  {
    hide Step;
    crc := Loop(ONES, data, length);
    crc := Complement(crc);
  }

  /** Continues a finished checksum over more data. */
  method Combine(crc1: bv32, data: array<bv8>, length: nat) returns (crc: bv32)
    requires length <= data.Length
    ensures forall head :: Checksum(head) == crc1 ==> crc == Checksum(head + data[..length])
  {
    hide Step, Complement, Checksum;
    crc := Loop(Complement(crc1), data, length);
    crc := Complement(crc);
    forall head | Checksum(head) == crc1
      ensures crc == Checksum(head + data[..length])
    {
      ChecksumContinues(head, data[..length]);
    }
  }

  /** Undoing the final complement and going on gives the checksum of the whole. */
  lemma ChecksumContinues(head: seq<bv8>, more: seq<bv8>)
    ensures Checksum(head + more) == Complement(Update(Complement(Checksum(head)), more))
  {
    hide Step, Complement;
    DoubleComplement(Update(ONES, head));
    UpdateAppend(ONES, head, more);
  }

  lemma DoubleComplement(c: bv32)
    ensures Complement(Complement(c)) == c
  {
  }

  /** Feeding two pieces one after the other is feeding their concatenation. */
  lemma {:induction false} UpdateAppend(c: bv32, a: seq<bv8>, b: seq<bv8>)
    ensures Update(Update(c, a), b) == Update(c, a + b)
  {
    hide Step;
    if b == [] {
      assert a + b == a;
    } else {
      assert (a + b)[..|a + b| - 1] == a + b[..|b| - 1];
      UpdateAppend(c, a, b[..|b| - 1]);
    }
  }
}
