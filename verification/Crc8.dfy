/** The CRC-8 of the 1-Wire devices, x^8 + x^5 + x^4 + 1 with the least significant bit
    first: bit by bit (Lua/sensor.c) and by table (common/CheckSumUtils.c). */
module Crc8 {

  function Step(y: bv8): bv8 {
    (y >> 1) ^ (if y & 1 != 0 then 0x8C else 0)
  }

  function Steps(y: bv8, k: nat): bv8 {
    if k == 0 then y else Step(Steps(y, k - 1))
  }

  /** What one byte does to the register it was added to. */
  function ByteStep(y: bv8): bv8 {
    Step(Step(Step(Step(Step(Step(Step(Step(y))))))))
  }

  /** The checksum of a message, starting from `crc`. */
  function Checksum(crc: bv8, m: seq<bv8>): bv8 {
    if m == [] then crc else ByteStep(Checksum(crc, m[..|m| - 1]) ^ m[|m| - 1])
  }

  // ----- the table ----------------------------------------------------------

  // CRC8Table, sixteen entries at a time; a row is read only at its own indices.

  function Row0(i: nat): bv8 {
    match i case 0 => 0 case 1 => 94 case 2 => 188 case 3 => 226 case 4 => 97 case 5 => 63 case 6 => 221 case 7 => 131
    case 8 => 194 case 9 => 156 case 10 => 126 case 11 => 32 case 12 => 163 case 13 => 253 case 14 => 31 case _ => 65
  }

  function Row1(i: nat): bv8 {
    match i case 16 => 157 case 17 => 195 case 18 => 33 case 19 => 127 case 20 => 252 case 21 => 162 case 22 => 64 case 23 => 30
    case 24 => 95 case 25 => 1 case 26 => 227 case 27 => 189 case 28 => 62 case 29 => 96 case 30 => 130 case _ => 220
  }

  function Row2(i: nat): bv8 {
    match i case 32 => 35 case 33 => 125 case 34 => 159 case 35 => 193 case 36 => 66 case 37 => 28 case 38 => 254 case 39 => 160
    case 40 => 225 case 41 => 191 case 42 => 93 case 43 => 3 case 44 => 128 case 45 => 222 case 46 => 60 case _ => 98
  }

  function Row3(i: nat): bv8 {
    match i case 48 => 190 case 49 => 224 case 50 => 2 case 51 => 92 case 52 => 223 case 53 => 129 case 54 => 99 case 55 => 61
    case 56 => 124 case 57 => 34 case 58 => 192 case 59 => 158 case 60 => 29 case 61 => 67 case 62 => 161 case _ => 255
  }

  function Row4(i: nat): bv8 {
    match i case 64 => 70 case 65 => 24 case 66 => 250 case 67 => 164 case 68 => 39 case 69 => 121 case 70 => 155 case 71 => 197
    case 72 => 132 case 73 => 218 case 74 => 56 case 75 => 102 case 76 => 229 case 77 => 187 case 78 => 89 case _ => 7
  }

  function Row5(i: nat): bv8 {
    match i case 80 => 219 case 81 => 133 case 82 => 103 case 83 => 57 case 84 => 186 case 85 => 228 case 86 => 6 case 87 => 88
    case 88 => 25 case 89 => 71 case 90 => 165 case 91 => 251 case 92 => 120 case 93 => 38 case 94 => 196 case _ => 154
  }

  function Row6(i: nat): bv8 {
    match i case 96 => 101 case 97 => 59 case 98 => 217 case 99 => 135 case 100 => 4 case 101 => 90 case 102 => 184 case 103 => 230
    case 104 => 167 case 105 => 249 case 106 => 27 case 107 => 69 case 108 => 198 case 109 => 152 case 110 => 122 case _ => 36
  }

  function Row7(i: nat): bv8 {
    match i case 112 => 248 case 113 => 166 case 114 => 68 case 115 => 26 case 116 => 153 case 117 => 199 case 118 => 37 case 119 => 123
    case 120 => 58 case 121 => 100 case 122 => 134 case 123 => 216 case 124 => 91 case 125 => 5 case 126 => 231 case _ => 185
  }

  function Row8(i: nat): bv8 {
    match i case 128 => 140 case 129 => 210 case 130 => 48 case 131 => 110 case 132 => 237 case 133 => 179 case 134 => 81 case 135 => 15
    case 136 => 78 case 137 => 16 case 138 => 242 case 139 => 172 case 140 => 47 case 141 => 113 case 142 => 147 case _ => 205
  }

  function Row9(i: nat): bv8 {
    match i case 144 => 17 case 145 => 79 case 146 => 173 case 147 => 243 case 148 => 112 case 149 => 46 case 150 => 204 case 151 => 146
    case 152 => 211 case 153 => 141 case 154 => 111 case 155 => 49 case 156 => 178 case 157 => 236 case 158 => 14 case _ => 80
  }

  function Row10(i: nat): bv8 {
    match i case 160 => 175 case 161 => 241 case 162 => 19 case 163 => 77 case 164 => 206 case 165 => 144 case 166 => 114 case 167 => 44
    case 168 => 109 case 169 => 51 case 170 => 209 case 171 => 143 case 172 => 12 case 173 => 82 case 174 => 176 case _ => 238
  }

  function Row11(i: nat): bv8 {
    match i case 176 => 50 case 177 => 108 case 178 => 142 case 179 => 208 case 180 => 83 case 181 => 13 case 182 => 239 case 183 => 177
    case 184 => 240 case 185 => 174 case 186 => 76 case 187 => 18 case 188 => 145 case 189 => 207 case 190 => 45 case _ => 115
  }

  function Row12(i: nat): bv8 {
    match i case 192 => 202 case 193 => 148 case 194 => 118 case 195 => 40 case 196 => 171 case 197 => 245 case 198 => 23 case 199 => 73
    case 200 => 8 case 201 => 86 case 202 => 180 case 203 => 234 case 204 => 105 case 205 => 55 case 206 => 213 case _ => 139
  }

  function Row13(i: nat): bv8 {
    match i case 208 => 87 case 209 => 9 case 210 => 235 case 211 => 181 case 212 => 54 case 213 => 104 case 214 => 138 case 215 => 212
    case 216 => 149 case 217 => 203 case 218 => 41 case 219 => 119 case 220 => 244 case 221 => 170 case 222 => 72 case _ => 22
  }

  function Row14(i: nat): bv8 {
    match i case 224 => 233 case 225 => 183 case 226 => 85 case 227 => 11 case 228 => 136 case 229 => 214 case 230 => 52 case 231 => 106
    case 232 => 43 case 233 => 117 case 234 => 151 case 235 => 201 case 236 => 74 case 237 => 20 case 238 => 246 case _ => 168
  }

  function Row15(i: nat): bv8 {
    match i case 240 => 116 case 241 => 42 case 242 => 200 case 243 => 150 case 244 => 21 case 245 => 75 case 246 => 169 case 247 => 247
    case 248 => 182 case 249 => 232 case 250 => 10 case 251 => 84 case 252 => 215 case 253 => 137 case 254 => 107 case _ => 53
  }

  /** CRC8Table[i]. */
  function Entry(i: nat): bv8
    requires i < 256
  {
    if i < 16 then Row0(i)
    else if i < 32 then Row1(i)
    else if i < 48 then Row2(i)
    else if i < 64 then Row3(i)
    else if i < 80 then Row4(i)
    else if i < 96 then Row5(i)
    else if i < 112 then Row6(i)
    else if i < 128 then Row7(i)
    else if i < 144 then Row8(i)
    else if i < 160 then Row9(i)
    else if i < 176 then Row10(i)
    else if i < 192 then Row11(i)
    else if i < 208 then Row12(i)
    else if i < 224 then Row13(i)
    else if i < 240 then Row14(i)
    else Row15(i)
  }

  lemma RightRow0Low(i: nat) requires 0 <= i < 8 ensures Row0(i) == ByteStep(i as bv8) {}
  lemma RightRow0High(i: nat) requires 8 <= i < 16 ensures Row0(i) == ByteStep(i as bv8) {}
  lemma RightRow1Low(i: nat) requires 16 <= i < 24 ensures Row1(i) == ByteStep(i as bv8) {}
  lemma RightRow1High(i: nat) requires 24 <= i < 32 ensures Row1(i) == ByteStep(i as bv8) {}
  lemma RightRow2Low(i: nat) requires 32 <= i < 40 ensures Row2(i) == ByteStep(i as bv8) {}
  lemma RightRow2High(i: nat) requires 40 <= i < 48 ensures Row2(i) == ByteStep(i as bv8) {}
  lemma RightRow3Low(i: nat) requires 48 <= i < 56 ensures Row3(i) == ByteStep(i as bv8) {}
  lemma RightRow3High(i: nat) requires 56 <= i < 64 ensures Row3(i) == ByteStep(i as bv8) {}
  lemma RightRow4Low(i: nat) requires 64 <= i < 72 ensures Row4(i) == ByteStep(i as bv8) {}
  lemma RightRow4High(i: nat) requires 72 <= i < 80 ensures Row4(i) == ByteStep(i as bv8) {}
  lemma RightRow5Low(i: nat) requires 80 <= i < 88 ensures Row5(i) == ByteStep(i as bv8) {}
  lemma RightRow5High(i: nat) requires 88 <= i < 96 ensures Row5(i) == ByteStep(i as bv8) {}
  lemma RightRow6Low(i: nat) requires 96 <= i < 104 ensures Row6(i) == ByteStep(i as bv8) {}
  lemma RightRow6High(i: nat) requires 104 <= i < 112 ensures Row6(i) == ByteStep(i as bv8) {}
  lemma RightRow7Low(i: nat) requires 112 <= i < 120 ensures Row7(i) == ByteStep(i as bv8) {}
  lemma RightRow7High(i: nat) requires 120 <= i < 128 ensures Row7(i) == ByteStep(i as bv8) {}
  lemma RightRow8Low(i: nat) requires 128 <= i < 136 ensures Row8(i) == ByteStep(i as bv8) {}
  lemma RightRow8High(i: nat) requires 136 <= i < 144 ensures Row8(i) == ByteStep(i as bv8) {}
  lemma RightRow9Low(i: nat) requires 144 <= i < 152 ensures Row9(i) == ByteStep(i as bv8) {}
  lemma RightRow9High(i: nat) requires 152 <= i < 160 ensures Row9(i) == ByteStep(i as bv8) {}
  lemma RightRow10Low(i: nat) requires 160 <= i < 168 ensures Row10(i) == ByteStep(i as bv8) {}
  lemma RightRow10High(i: nat) requires 168 <= i < 176 ensures Row10(i) == ByteStep(i as bv8) {}
  lemma RightRow11Low(i: nat) requires 176 <= i < 184 ensures Row11(i) == ByteStep(i as bv8) {}
  lemma RightRow11High(i: nat) requires 184 <= i < 192 ensures Row11(i) == ByteStep(i as bv8) {}
  lemma RightRow12Low(i: nat) requires 192 <= i < 200 ensures Row12(i) == ByteStep(i as bv8) {}
  lemma RightRow12High(i: nat) requires 200 <= i < 208 ensures Row12(i) == ByteStep(i as bv8) {}
  lemma RightRow13Low(i: nat) requires 208 <= i < 216 ensures Row13(i) == ByteStep(i as bv8) {}
  lemma RightRow13High(i: nat) requires 216 <= i < 224 ensures Row13(i) == ByteStep(i as bv8) {}
  lemma RightRow14Low(i: nat) requires 224 <= i < 232 ensures Row14(i) == ByteStep(i as bv8) {}
  lemma RightRow14High(i: nat) requires 232 <= i < 240 ensures Row14(i) == ByteStep(i as bv8) {}
  lemma RightRow15Low(i: nat) requires 240 <= i < 248 ensures Row15(i) == ByteStep(i as bv8) {}
  lemma RightRow15High(i: nat) requires 248 <= i < 256 ensures Row15(i) == ByteStep(i as bv8) {}

  /** Every entry of the table is the bitwise step of its index. */
  lemma TableIsByteStep(i: nat)
    requires i < 256
    ensures Entry(i) == ByteStep(i as bv8)
  {
    hide ByteStep, Row0, Row1, Row2, Row3, Row4, Row5, Row6, Row7, Row8, Row9, Row10, Row11, Row12, Row13, Row14, Row15;
    if i < 16 { if i < 8 { RightRow0Low(i); } else { RightRow0High(i); }
    } else if i < 32 { if i < 24 { RightRow1Low(i); } else { RightRow1High(i); }
    } else if i < 48 { if i < 40 { RightRow2Low(i); } else { RightRow2High(i); }
    } else if i < 64 { if i < 56 { RightRow3Low(i); } else { RightRow3High(i); }
    } else if i < 80 { if i < 72 { RightRow4Low(i); } else { RightRow4High(i); }
    } else if i < 96 { if i < 88 { RightRow5Low(i); } else { RightRow5High(i); }
    } else if i < 112 { if i < 104 { RightRow6Low(i); } else { RightRow6High(i); }
    } else if i < 128 { if i < 120 { RightRow7Low(i); } else { RightRow7High(i); }
    } else if i < 144 { if i < 136 { RightRow8Low(i); } else { RightRow8High(i); }
    } else if i < 160 { if i < 152 { RightRow9Low(i); } else { RightRow9High(i); }
    } else if i < 176 { if i < 168 { RightRow10Low(i); } else { RightRow10High(i); }
    } else if i < 192 { if i < 184 { RightRow11Low(i); } else { RightRow11High(i); }
    } else if i < 208 { if i < 200 { RightRow12Low(i); } else { RightRow12High(i); }
    } else if i < 224 { if i < 216 { RightRow13Low(i); } else { RightRow13High(i); }
    } else if i < 240 { if i < 232 { RightRow14Low(i); } else { RightRow14High(i); }
    } else { if i < 248 { RightRow15Low(i); } else { RightRow15High(i); } }
  }

  lemma EntryIsByteStep(x: bv8)
    ensures Entry(x as nat) == ByteStep(x)
  {
    hide Entry, ByteStep;
    TableIsByteStep(x as nat);
  }

  method Crc8Table(crc8Ori: bv8, p: array<bv8>, from: nat, counter: nat) returns (crc8: bv8)
    requires from + counter <= p.Length
    ensures crc8 == Checksum(crc8Ori, p[from..from + counter])
  {
    hide Entry, ByteStep;
    crc8 := crc8Ori;
    ghost var m := p[from..from + counter];
    assert m[..0] == [] && m[..counter] == m;
    for i := 0 to counter
      invariant crc8 == Checksum(crc8Ori, m[..i])
    {
      assert m[..i + 1][..i] == m[..i];
      var index := crc8 ^ p[from + i];
      EntryIsByteStep(index);
      crc8 := Entry(index as nat);
    }
  }

  // ----- bit by bit ---------------------------------------------------------

  function Plus(a: bv8, b: bv8): bv8 {
    a ^ b
  }

  function Half(b: bv8): bv8 {
    b >> 1
  }

  function Shifted(b: bv8, k: nat): bv8 {
    if k == 0 then b else Half(Shifted(b, k - 1))
  }

  lemma ShiftedOut(b: bv8)
    ensures Shifted(b, 8) == 0
  {
    assert Shifted(b, 1) == Half(b);
    assert Shifted(b, 2) == Half(Half(b));
    assert Shifted(b, 4) == Half(Half(Shifted(b, 2)));
    assert Shifted(b, 6) == Half(Half(Shifted(b, 4)));
    assert Shifted(b, 8) == Half(Half(Shifted(b, 6)));
    assert Half(Half(Half(Half(Half(Half(Half(Half(b)))))))) == 0;
  }

  lemma EightSteps(y: bv8)
    ensures Steps(y, 8) == ByteStep(y)
  {
    hide Step;
    assert Steps(y, 1) == Step(y);
    assert Steps(y, 2) == Step(Step(y));
    assert Steps(y, 4) == Step(Step(Steps(y, 2)));
    assert Steps(y, 6) == Step(Step(Steps(y, 4)));
    assert Steps(y, 8) == Step(Step(Steps(y, 6)));
  }

  method AddBit(crcIn: bv8, inbyte: bv8) returns (crc: bv8)
    ensures Plus(crc, Half(inbyte)) == Step(Plus(crcIn, inbyte))
  {
    var mix := (crcIn ^ inbyte) & 1;
    crc := crcIn >> 1;
    if mix != 0 {
      crc := crc ^ 0x8C;
    }
  }

  /** The bits of one byte: adding it bit by bit equals adding it at once. */
  method AddByte(crcIn: bv8, byte: bv8) returns (crc: bv8)
    ensures crc == ByteStep(crcIn ^ byte)
  {
    crc := crcIn;
    var inbyte := byte;
    var i := 8;
    ghost var y := Plus(crcIn, byte);
    hide Step, ByteStep, Half;
    while i != 0
      invariant 0 <= i <= 8 && inbyte == Shifted(byte, 8 - i)
      invariant Plus(crc, inbyte) == Steps(y, 8 - i)
    {
      hide Plus;
      crc := AddBit(crc, inbyte);
      inbyte := Half(inbyte);
      i := i - 1;
    }
    ShiftedOut(byte);
    EightSteps(y);
  }

  method OneWireCrc8(addr: array<bv8>, from: nat, len: nat) returns (crc: bv8)
    requires len < 256 && from + len <= addr.Length
    ensures crc == Checksum(0, addr[from..from + len])
  {
    hide ByteStep;
    crc := 0;
    ghost var m := addr[from..from + len];
    assert m[..0] == [] && m[..len] == m;
    for i := 0 to len
      invariant crc == Checksum(0, m[..i])
    {
      assert m[..i + 1][..i] == m[..i];
      crc := AddByte(crc, addr[from + i]);
    }
  }

  // ----- the check of a received scratchpad ---------------------------------

  lemma StepKeepsNonZero(y: bv8)
    ensures Step(y) == 0 <==> y == 0
  {
  }

  lemma ByteStepKeepsNonZero(y: bv8)
    ensures ByteStep(y) == 0 <==> y == 0
  {
    EightSteps(y);
    hide ByteStep, Step;
    StepsKeepNonZero(y, 8);
  }

  lemma {:induction false} StepsKeepNonZero(y: bv8, k: nat)
    ensures Steps(y, k) == 0 <==> y == 0
  {
    hide Step;
    if k > 0 {
      StepsKeepNonZero(y, k - 1);
      StepKeepsNonZero(Steps(y, k - 1));
    }
  }

  /** Comparing with the last byte is the same as a zero checksum over all of them. */
  lemma CheckIsZeroChecksum(data: seq<bv8>, last: bv8)
    ensures Checksum(0, data) == last <==> Checksum(0, data + [last]) == 0
  {
    hide ByteStep, Checksum;
    ChecksumNext(data, last);
    ByteStepKeepsNonZero(Checksum(0, data) ^ last);
    XorIsZero(Checksum(0, data), last);
  }

  lemma ChecksumNext(data: seq<bv8>, last: bv8)
    ensures Checksum(0, data + [last]) == ByteStep(Checksum(0, data) ^ last)
  {
    hide ByteStep;
    assert (data + [last])[..|data|] == data;
  }

  lemma XorIsZero(a: bv8, b: bv8)
    ensures a ^ b == 0 <==> a == b
  {
  }
}
