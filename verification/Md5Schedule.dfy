/** The order of the 64 operations of MD5, for any operation on any kind of word. */
module Md5Schedule {
  datatype Quad<W> = Quad(a: W, b: W, c: W, d: W)

  /** One operation [abcd k s i] of section 3.4 of RFC 1321: auxiliary function,
      word of the block, rotation, additive constant. */
  datatype Row = Row(f: nat, k: nat, s: nat, t: nat)

  /** The new value of a. */
  type Mix<!W> = (Row, W, W, W, W) -> W

  /** T[1..16] of section 3.4. */
  function Sine1(i: nat): nat {
    match i
    case 0 => 0xd76a_a478
    case 1 => 0xe8c7_b756
    case 2 => 0x2420_70db
    case 3 => 0xc1bd_ceee
    case 4 => 0xf57c_0faf
    case 5 => 0x4787_c62a
    case 6 => 0xa830_4613
    case 7 => 0xfd46_9501
    case 8 => 0x6980_98d8
    case 9 => 0x8b44_f7af
    case 10 => 0xffff_5bb1
    case 11 => 0x895c_d7be
    case 12 => 0x6b90_1122
    case 13 => 0xfd98_7193
    case 14 => 0xa679_438e
    case 15 => 0x49b4_0821
    case _ => 0
  }

  /** T[17..32] of section 3.4. */
  function Sine2(i: nat): nat {
    match i
    case 0 => 0xf61e_2562
    case 1 => 0xc040_b340
    case 2 => 0x265e_5a51
    case 3 => 0xe9b6_c7aa
    case 4 => 0xd62f_105d
    case 5 => 0x0244_1453
    case 6 => 0xd8a1_e681
    case 7 => 0xe7d3_fbc8
    case 8 => 0x21e1_cde6
    case 9 => 0xc337_07d6
    case 10 => 0xf4d5_0d87
    case 11 => 0x455a_14ed
    case 12 => 0xa9e3_e905
    case 13 => 0xfcef_a3f8
    case 14 => 0x676f_02d9
    case 15 => 0x8d2a_4c8a
    case _ => 0
  }

  /** T[33..48] of section 3.4. */
  function Sine3(i: nat): nat {
    match i
    case 0 => 0xfffa_3942
    case 1 => 0x8771_f681
    case 2 => 0x6d9d_6122
    case 3 => 0xfde5_380c
    case 4 => 0xa4be_ea44
    case 5 => 0x4bde_cfa9
    case 6 => 0xf6bb_4b60
    case 7 => 0xbebf_bc70
    case 8 => 0x289b_7ec6
    case 9 => 0xeaa1_27fa
    case 10 => 0xd4ef_3085
    case 11 => 0x0488_1d05
    case 12 => 0xd9d4_d039
    case 13 => 0xe6db_99e5
    case 14 => 0x1fa2_7cf8
    case 15 => 0xc4ac_5665
    case _ => 0
  }

  /** T[49..64] of section 3.4. */
  function Sine4(i: nat): nat {
    match i
    case 0 => 0xf429_2244
    case 1 => 0x432a_ff97
    case 2 => 0xab94_23a7
    case 3 => 0xfc93_a039
    case 4 => 0x655b_59c3
    case 5 => 0x8f0c_cc92
    case 6 => 0xffef_f47d
    case 7 => 0x8584_5dd1
    case 8 => 0x6fa8_7e4f
    case 9 => 0xfe2c_e6e0
    case 10 => 0xa301_4314
    case 11 => 0x4e08_11a1
    case 12 => 0xf753_7e82
    case 13 => 0xbd3a_f235
    case 14 => 0x2ad7_d2bb
    case 15 => 0xeb86_d391
    case _ => 0
  }

  function Sine(i: nat): nat {
    if i < 16 then Sine1(i) else if i < 32 then Sine2(i - 16) else if i < 48 then Sine3(i - 32) else Sine4(i - 48)
  }

  function Index(i: nat): nat {
    if i < 16 then i
    else if i < 32 then (5 * i + 1) % 16
    else if i < 48 then (3 * i + 5) % 16
    else 7 * i % 16
  }

  function Pick(j: nat, s0: nat, s1: nat, s2: nat, s3: nat): nat {
    if j == 0 then s0 else if j == 1 then s1 else if j == 2 then s2 else s3
  }

  function Shift(i: nat): nat {
    if i < 16 then Pick(i % 4, 7, 12, 17, 22)
    else if i < 32 then Pick(i % 4, 5, 9, 14, 20)
    else if i < 48 then Pick(i % 4, 4, 11, 16, 23)
    else Pick(i % 4, 6, 10, 15, 21)
  }

  function RowAt(i: nat): Row { Row(i / 16, Index(i), Shift(i), Sine(i)) }

  /** Step i replaces a and renames the four words in rotation. */
  function Step<W>(op: Mix<W>, row: nat -> Row, q: Quad<W>, i: nat): Quad<W> {
    Quad(q.d, op(row(i), q.a, q.b, q.c, q.d), q.b, q.c)
  }

  function Steps<W>(op: Mix<W>, row: nat -> Row, q: Quad<W>, n: nat): Quad<W>
    decreases n, q
  {
    if n == 0 then q else Step(op, row, Steps(op, row, q, n - 1), n - 1)
  }

  lemma Unfold<W>(op: Mix<W>, row: nat -> Row, q: Quad<W>, n: nat)
    ensures Steps(op, row, q, n + 1) == Step(op, row, Steps(op, row, q, n), n)
  {
  }

  /** Four steps bring every word back to its own name. */
  lemma FourSteps<W>(op: Mix<W>, row: nat -> Row, q0: Quad<W>, i: nat)
    ensures var q := Steps(op, row, q0, i);
      var a := op(row(i), q.a, q.b, q.c, q.d);
      var d := op(row(i + 1), q.d, a, q.b, q.c);
      var c := op(row(i + 2), q.c, d, a, q.b);
      var b := op(row(i + 3), q.b, c, d, a);
      Steps(op, row, q0, i + 4) == Quad(a, b, c, d)
  {
    Unfold(op, row, q0, i);
    Unfold(op, row, q0, i + 1);
    Unfold(op, row, q0, i + 2);
    Unfold(op, row, q0, i + 3);
  }

  lemma Rows1()

    ensures RowAt(0) == Row(0, 0, 7, 0xd76a_a478) && RowAt(1) == Row(0, 1, 12, 0xe8c7_b756)
    ensures RowAt(2) == Row(0, 2, 17, 0x2420_70db) && RowAt(3) == Row(0, 3, 22, 0xc1bd_ceee)
    ensures RowAt(4) == Row(0, 4, 7, 0xf57c_0faf) && RowAt(5) == Row(0, 5, 12, 0x4787_c62a)
    ensures RowAt(6) == Row(0, 6, 17, 0xa830_4613) && RowAt(7) == Row(0, 7, 22, 0xfd46_9501)
    ensures RowAt(8) == Row(0, 8, 7, 0x6980_98d8) && RowAt(9) == Row(0, 9, 12, 0x8b44_f7af)
    ensures RowAt(10) == Row(0, 10, 17, 0xffff_5bb1) && RowAt(11) == Row(0, 11, 22, 0x895c_d7be)
    ensures RowAt(12) == Row(0, 12, 7, 0x6b90_1122) && RowAt(13) == Row(0, 13, 12, 0xfd98_7193)
    ensures RowAt(14) == Row(0, 14, 17, 0xa679_438e) && RowAt(15) == Row(0, 15, 22, 0x49b4_0821)
  {
  }

  method Round1<W>(op: Mix<W>, q: Quad<W>, ghost row: nat -> Row, ghost q0: Quad<W>) returns (r: Quad<W>)
    requires row == RowAt && q == Steps(op, row, q0, 0)
    ensures r == Steps(op, row, q0, 16)
  {
    Rows1();
    var A, B, C, D := q.a, q.b, q.c, q.d;
    FourSteps(op, row, q0, 0);
    A := op(Row(0, 0, 7, 0xd76a_a478), A, B, C, D);
    D := op(Row(0, 1, 12, 0xe8c7_b756), D, A, B, C);
    C := op(Row(0, 2, 17, 0x2420_70db), C, D, A, B);
    B := op(Row(0, 3, 22, 0xc1bd_ceee), B, C, D, A);
    FourSteps(op, row, q0, 4);
    A := op(Row(0, 4, 7, 0xf57c_0faf), A, B, C, D);
    D := op(Row(0, 5, 12, 0x4787_c62a), D, A, B, C);
    C := op(Row(0, 6, 17, 0xa830_4613), C, D, A, B);
    B := op(Row(0, 7, 22, 0xfd46_9501), B, C, D, A);
    FourSteps(op, row, q0, 8);
    A := op(Row(0, 8, 7, 0x6980_98d8), A, B, C, D);
    D := op(Row(0, 9, 12, 0x8b44_f7af), D, A, B, C);
    C := op(Row(0, 10, 17, 0xffff_5bb1), C, D, A, B);
    B := op(Row(0, 11, 22, 0x895c_d7be), B, C, D, A);
    FourSteps(op, row, q0, 12);
    A := op(Row(0, 12, 7, 0x6b90_1122), A, B, C, D);
    D := op(Row(0, 13, 12, 0xfd98_7193), D, A, B, C);
    C := op(Row(0, 14, 17, 0xa679_438e), C, D, A, B);
    B := op(Row(0, 15, 22, 0x49b4_0821), B, C, D, A);
    r := Quad(A, B, C, D);
  }

  lemma Rows2()

    ensures RowAt(16) == Row(1, 1, 5, 0xf61e_2562) && RowAt(17) == Row(1, 6, 9, 0xc040_b340)
    ensures RowAt(18) == Row(1, 11, 14, 0x265e_5a51) && RowAt(19) == Row(1, 0, 20, 0xe9b6_c7aa)
    ensures RowAt(20) == Row(1, 5, 5, 0xd62f_105d) && RowAt(21) == Row(1, 10, 9, 0x0244_1453)
    ensures RowAt(22) == Row(1, 15, 14, 0xd8a1_e681) && RowAt(23) == Row(1, 4, 20, 0xe7d3_fbc8)
    ensures RowAt(24) == Row(1, 9, 5, 0x21e1_cde6) && RowAt(25) == Row(1, 14, 9, 0xc337_07d6)
    ensures RowAt(26) == Row(1, 3, 14, 0xf4d5_0d87) && RowAt(27) == Row(1, 8, 20, 0x455a_14ed)
    ensures RowAt(28) == Row(1, 13, 5, 0xa9e3_e905) && RowAt(29) == Row(1, 2, 9, 0xfcef_a3f8)
    ensures RowAt(30) == Row(1, 7, 14, 0x676f_02d9) && RowAt(31) == Row(1, 12, 20, 0x8d2a_4c8a)
  {
  }

  method Round2<W>(op: Mix<W>, q: Quad<W>, ghost row: nat -> Row, ghost q0: Quad<W>) returns (r: Quad<W>)
    requires row == RowAt && q == Steps(op, row, q0, 16)
    ensures r == Steps(op, row, q0, 32)
  {
    Rows2();
    var A, B, C, D := q.a, q.b, q.c, q.d;
    FourSteps(op, row, q0, 16);
    A := op(Row(1, 1, 5, 0xf61e_2562), A, B, C, D);
    D := op(Row(1, 6, 9, 0xc040_b340), D, A, B, C);
    C := op(Row(1, 11, 14, 0x265e_5a51), C, D, A, B);
    B := op(Row(1, 0, 20, 0xe9b6_c7aa), B, C, D, A);
    FourSteps(op, row, q0, 20);
    A := op(Row(1, 5, 5, 0xd62f_105d), A, B, C, D);
    D := op(Row(1, 10, 9, 0x0244_1453), D, A, B, C);
    C := op(Row(1, 15, 14, 0xd8a1_e681), C, D, A, B);
    B := op(Row(1, 4, 20, 0xe7d3_fbc8), B, C, D, A);
    FourSteps(op, row, q0, 24);
    A := op(Row(1, 9, 5, 0x21e1_cde6), A, B, C, D);
    D := op(Row(1, 14, 9, 0xc337_07d6), D, A, B, C);
    C := op(Row(1, 3, 14, 0xf4d5_0d87), C, D, A, B);
    B := op(Row(1, 8, 20, 0x455a_14ed), B, C, D, A);
    FourSteps(op, row, q0, 28);
    A := op(Row(1, 13, 5, 0xa9e3_e905), A, B, C, D);
    D := op(Row(1, 2, 9, 0xfcef_a3f8), D, A, B, C);
    C := op(Row(1, 7, 14, 0x676f_02d9), C, D, A, B);
    B := op(Row(1, 12, 20, 0x8d2a_4c8a), B, C, D, A);
    r := Quad(A, B, C, D);
  }

  lemma Rows3()

    ensures RowAt(32) == Row(2, 5, 4, 0xfffa_3942) && RowAt(33) == Row(2, 8, 11, 0x8771_f681)
    ensures RowAt(34) == Row(2, 11, 16, 0x6d9d_6122) && RowAt(35) == Row(2, 14, 23, 0xfde5_380c)
    ensures RowAt(36) == Row(2, 1, 4, 0xa4be_ea44) && RowAt(37) == Row(2, 4, 11, 0x4bde_cfa9)
    ensures RowAt(38) == Row(2, 7, 16, 0xf6bb_4b60) && RowAt(39) == Row(2, 10, 23, 0xbebf_bc70)
    ensures RowAt(40) == Row(2, 13, 4, 0x289b_7ec6) && RowAt(41) == Row(2, 0, 11, 0xeaa1_27fa)
    ensures RowAt(42) == Row(2, 3, 16, 0xd4ef_3085) && RowAt(43) == Row(2, 6, 23, 0x0488_1d05)
    ensures RowAt(44) == Row(2, 9, 4, 0xd9d4_d039) && RowAt(45) == Row(2, 12, 11, 0xe6db_99e5)
    ensures RowAt(46) == Row(2, 15, 16, 0x1fa2_7cf8) && RowAt(47) == Row(2, 2, 23, 0xc4ac_5665)
  {
  }

  method Round3<W>(op: Mix<W>, q: Quad<W>, ghost row: nat -> Row, ghost q0: Quad<W>) returns (r: Quad<W>)
    requires row == RowAt && q == Steps(op, row, q0, 32)
    ensures r == Steps(op, row, q0, 48)
  {
    Rows3();
    var A, B, C, D := q.a, q.b, q.c, q.d;
    FourSteps(op, row, q0, 32);
    A := op(Row(2, 5, 4, 0xfffa_3942), A, B, C, D);
    D := op(Row(2, 8, 11, 0x8771_f681), D, A, B, C);
    C := op(Row(2, 11, 16, 0x6d9d_6122), C, D, A, B);
    B := op(Row(2, 14, 23, 0xfde5_380c), B, C, D, A);
    FourSteps(op, row, q0, 36);
    A := op(Row(2, 1, 4, 0xa4be_ea44), A, B, C, D);
    D := op(Row(2, 4, 11, 0x4bde_cfa9), D, A, B, C);
    C := op(Row(2, 7, 16, 0xf6bb_4b60), C, D, A, B);
    B := op(Row(2, 10, 23, 0xbebf_bc70), B, C, D, A);
    FourSteps(op, row, q0, 40);
    A := op(Row(2, 13, 4, 0x289b_7ec6), A, B, C, D);
    D := op(Row(2, 0, 11, 0xeaa1_27fa), D, A, B, C);
    C := op(Row(2, 3, 16, 0xd4ef_3085), C, D, A, B);
    B := op(Row(2, 6, 23, 0x0488_1d05), B, C, D, A);
    FourSteps(op, row, q0, 44);
    A := op(Row(2, 9, 4, 0xd9d4_d039), A, B, C, D);
    D := op(Row(2, 12, 11, 0xe6db_99e5), D, A, B, C);
    C := op(Row(2, 15, 16, 0x1fa2_7cf8), C, D, A, B);
    B := op(Row(2, 2, 23, 0xc4ac_5665), B, C, D, A);
    r := Quad(A, B, C, D);
  }

  lemma Rows4()

    ensures RowAt(48) == Row(3, 0, 6, 0xf429_2244) && RowAt(49) == Row(3, 7, 10, 0x432a_ff97)
    ensures RowAt(50) == Row(3, 14, 15, 0xab94_23a7) && RowAt(51) == Row(3, 5, 21, 0xfc93_a039)
    ensures RowAt(52) == Row(3, 12, 6, 0x655b_59c3) && RowAt(53) == Row(3, 3, 10, 0x8f0c_cc92)
    ensures RowAt(54) == Row(3, 10, 15, 0xffef_f47d) && RowAt(55) == Row(3, 1, 21, 0x8584_5dd1)
    ensures RowAt(56) == Row(3, 8, 6, 0x6fa8_7e4f) && RowAt(57) == Row(3, 15, 10, 0xfe2c_e6e0)
    ensures RowAt(58) == Row(3, 6, 15, 0xa301_4314) && RowAt(59) == Row(3, 13, 21, 0x4e08_11a1)
    ensures RowAt(60) == Row(3, 4, 6, 0xf753_7e82) && RowAt(61) == Row(3, 11, 10, 0xbd3a_f235)
    ensures RowAt(62) == Row(3, 2, 15, 0x2ad7_d2bb) && RowAt(63) == Row(3, 9, 21, 0xeb86_d391)
  {
  }

  method Round4<W>(op: Mix<W>, q: Quad<W>, ghost row: nat -> Row, ghost q0: Quad<W>) returns (r: Quad<W>)
    requires row == RowAt && q == Steps(op, row, q0, 48)
    ensures r == Steps(op, row, q0, 64)
  {
    Rows4();
    var A, B, C, D := q.a, q.b, q.c, q.d;
    FourSteps(op, row, q0, 48);
    A := op(Row(3, 0, 6, 0xf429_2244), A, B, C, D);
    D := op(Row(3, 7, 10, 0x432a_ff97), D, A, B, C);
    C := op(Row(3, 14, 15, 0xab94_23a7), C, D, A, B);
    B := op(Row(3, 5, 21, 0xfc93_a039), B, C, D, A);
    FourSteps(op, row, q0, 52);
    A := op(Row(3, 12, 6, 0x655b_59c3), A, B, C, D);
    D := op(Row(3, 3, 10, 0x8f0c_cc92), D, A, B, C);
    C := op(Row(3, 10, 15, 0xffef_f47d), C, D, A, B);
    B := op(Row(3, 1, 21, 0x8584_5dd1), B, C, D, A);
    FourSteps(op, row, q0, 56);
    A := op(Row(3, 8, 6, 0x6fa8_7e4f), A, B, C, D);
    D := op(Row(3, 15, 10, 0xfe2c_e6e0), D, A, B, C);
    C := op(Row(3, 6, 15, 0xa301_4314), C, D, A, B);
    B := op(Row(3, 13, 21, 0x4e08_11a1), B, C, D, A);
    FourSteps(op, row, q0, 60);
    A := op(Row(3, 4, 6, 0xf753_7e82), A, B, C, D);
    D := op(Row(3, 11, 10, 0xbd3a_f235), D, A, B, C);
    C := op(Row(3, 2, 15, 0x2ad7_d2bb), C, D, A, B);
    B := op(Row(3, 9, 21, 0xeb86_d391), B, C, D, A);
    r := Quad(A, B, C, D);
  }
}
