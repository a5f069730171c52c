/**
  The one-block example of FIPS 180-4, "abc", worked out: the schedule, the working variables and
  the digest. It fixes every constant, rotation and order of the functions in Sha1.
*/
module Sha1Example {
  import opened Octets
  import opened Sha1

  const ABC: octets := [0x61, 0x62, 0x63]
  const BLOCK: octets := ABC + [0x80] + Zeros(52) + [0, 0, 0, 0, 0, 0, 0, 24]

  lemma Words0()
    ensures W(BLOCK, 0) == 0x61626380 && W(BLOCK, 1) == 0x00000000
    ensures W(BLOCK, 2) == 0x00000000 && W(BLOCK, 3) == 0x00000000
    ensures W(BLOCK, 4) == 0x00000000 && W(BLOCK, 5) == 0x00000000
    ensures W(BLOCK, 6) == 0x00000000 && W(BLOCK, 7) == 0x00000000
    ensures W(BLOCK, 8) == 0x00000000 && W(BLOCK, 9) == 0x00000000
    ensures W(BLOCK, 10) == 0x00000000 && W(BLOCK, 11) == 0x00000000
    ensures W(BLOCK, 12) == 0x00000000 && W(BLOCK, 13) == 0x00000000
    ensures W(BLOCK, 14) == 0x00000000 && W(BLOCK, 15) == 0x00000018
  {
  }

  lemma Words1()
    ensures W(BLOCK, 16) == 0xC2C4C700 && W(BLOCK, 17) == 0x00000000
    ensures W(BLOCK, 18) == 0x00000030 && W(BLOCK, 19) == 0x85898E01
    ensures W(BLOCK, 20) == 0x00000000 && W(BLOCK, 21) == 0x00000060
    ensures W(BLOCK, 22) == 0x0B131C03 && W(BLOCK, 23) == 0x00000030
    ensures W(BLOCK, 24) == 0x85898EC1 && W(BLOCK, 25) == 0x16263806
    ensures W(BLOCK, 26) == 0x00000000 && W(BLOCK, 27) == 0x00000180
    ensures W(BLOCK, 28) == 0x2C4C700C && W(BLOCK, 29) == 0x000000F0
    ensures W(BLOCK, 30) == 0x93AFB507 && W(BLOCK, 31) == 0x5898E048
  {
    Words0();
  }

  lemma Words2()
    ensures W(BLOCK, 32) == 0x8E9A9202 && W(BLOCK, 33) == 0x00000600
    ensures W(BLOCK, 34) == 0xB131C0F0 && W(BLOCK, 35) == 0x16263BC6
    ensures W(BLOCK, 36) == 0x4EBED41E && W(BLOCK, 37) == 0x626380A1
    ensures W(BLOCK, 38) == 0x16263806 && W(BLOCK, 39) == 0x000018C0
    ensures W(BLOCK, 40) == 0xD2E138C4 && W(BLOCK, 41) == 0x00000F00
    ensures W(BLOCK, 42) == 0x3AFB5079 && W(BLOCK, 43) == 0x898E04E5
    ensures W(BLOCK, 44) == 0xE2BA3C2B && W(BLOCK, 45) == 0x000060C0
    ensures W(BLOCK, 46) == 0x053A37CD && W(BLOCK, 47) == 0x74458547
  {
    Words1();
  }

  lemma Words3()
    ensures W(BLOCK, 48) == 0xDA9415ED && W(BLOCK, 49) == 0x26380A16
    ensures W(BLOCK, 50) == 0x626383A1 && W(BLOCK, 51) == 0x4EBF54DE
    ensures W(BLOCK, 52) == 0x3835B44B && W(BLOCK, 53) == 0x0000F600
    ensures W(BLOCK, 54) == 0x1E84C7A3 && W(BLOCK, 55) == 0x98E04D98
    ensures W(BLOCK, 56) == 0x651D16A0 && W(BLOCK, 57) == 0x62658CA1
    ensures W(BLOCK, 58) == 0x458544D6 && W(BLOCK, 59) == 0x44584CB7
    ensures W(BLOCK, 60) == 0x7BA06619 && W(BLOCK, 61) == 0x6380AEA2
    ensures W(BLOCK, 62) == 0x0AE55269 && W(BLOCK, 63) == 0x627B49A1
  {
    Words2();
  }

  lemma Words4()
    ensures W(BLOCK, 64) == 0x7CD45C9D && W(BLOCK, 65) == 0x000F0000
    ensures W(BLOCK, 66) == 0xFB50753A && W(BLOCK, 67) == 0xEC6765E8
    ensures W(BLOCK, 68) == 0xBA3C2BE2 && W(BLOCK, 69) == 0x0060C000
    ensures W(BLOCK, 70) == 0x3A37CD05 && W(BLOCK, 71) == 0x458546F4
    ensures W(BLOCK, 72) == 0xB8599DD6 && W(BLOCK, 73) == 0x380A1A26
    ensures W(BLOCK, 74) == 0x01E02203 && W(BLOCK, 75) == 0xE7CC3456
    ensures W(BLOCK, 76) == 0xE6E60B69 && W(BLOCK, 77) == 0x00F60A00
    ensures W(BLOCK, 78) == 0x5795EF4F && W(BLOCK, 79) == 0x822E0879
  {
    Words3();
  }

  lemma Rounds0()
    ensures Rounds(INITIAL, BLOCK, 10) == Chain(0x8351F929, 0x4B6AE328, 0x27A301F5, 0x664F8C30, 0x0FF1F290)
  {
    Words0();
    assert Rounds(INITIAL, BLOCK, 1) == Chain(0x0116FC33, 0x67452301, 0x7BF36AE2, 0x98BADCFE, 0x10325476);
    assert Rounds(INITIAL, BLOCK, 2) == Chain(0x8990536D, 0x0116FC33, 0x59D148C0, 0x7BF36AE2, 0x98BADCFE);
    assert Rounds(INITIAL, BLOCK, 3) == Chain(0xA1390F08, 0x8990536D, 0xC045BF0C, 0x59D148C0, 0x7BF36AE2);
    assert Rounds(INITIAL, BLOCK, 4) == Chain(0xCDD8E11B, 0xA1390F08, 0x626414DB, 0xC045BF0C, 0x59D148C0);
    assert Rounds(INITIAL, BLOCK, 5) == Chain(0xCFD499DE, 0xCDD8E11B, 0x284E43C2, 0x626414DB, 0xC045BF0C);
    assert Rounds(INITIAL, BLOCK, 6) == Chain(0x3FC7CA40, 0xCFD499DE, 0xF3763846, 0x284E43C2, 0x626414DB);
    assert Rounds(INITIAL, BLOCK, 7) == Chain(0x993E30C1, 0x3FC7CA40, 0xB3F52677, 0xF3763846, 0x284E43C2);
    assert Rounds(INITIAL, BLOCK, 8) == Chain(0x9E8C07D4, 0x993E30C1, 0x0FF1F290, 0xB3F52677, 0xF3763846);
    assert Rounds(INITIAL, BLOCK, 9) == Chain(0x4B6AE328, 0x9E8C07D4, 0x664F8C30, 0x0FF1F290, 0xB3F52677);
  }

  lemma Rounds1()
    ensures Rounds(INITIAL, BLOCK, 20) == Chain(0xFD9E1D7D, 0xDC64901D, 0x20AA99CA, 0xD3A49608, 0xC82F758B)
  {
    Rounds0();
    Words0();
    Words1();
    assert Rounds(INITIAL, BLOCK, 11) == Chain(0xFBDA9E89, 0x8351F929, 0x12DAB8CA, 0x27A301F5, 0x664F8C30);
    assert Rounds(INITIAL, BLOCK, 12) == Chain(0x63188FE4, 0xFBDA9E89, 0x60D47E4A, 0x12DAB8CA, 0x27A301F5);
    assert Rounds(INITIAL, BLOCK, 13) == Chain(0x4607B664, 0x63188FE4, 0x7EF6A7A2, 0x60D47E4A, 0x12DAB8CA);
    assert Rounds(INITIAL, BLOCK, 14) == Chain(0x9128F695, 0x4607B664, 0x18C623F9, 0x7EF6A7A2, 0x60D47E4A);
    assert Rounds(INITIAL, BLOCK, 15) == Chain(0x196BEE77, 0x9128F695, 0x1181ED99, 0x18C623F9, 0x7EF6A7A2);
    assert Rounds(INITIAL, BLOCK, 16) == Chain(0x20BDD62F, 0x196BEE77, 0x644A3DA5, 0x1181ED99, 0x18C623F9);
    assert Rounds(INITIAL, BLOCK, 17) == Chain(0x4E925823, 0x20BDD62F, 0xC65AFB9D, 0x644A3DA5, 0x1181ED99);
    assert Rounds(INITIAL, BLOCK, 18) == Chain(0x82AA6728, 0x4E925823, 0xC82F758B, 0xC65AFB9D, 0x644A3DA5);
    assert Rounds(INITIAL, BLOCK, 19) == Chain(0xDC64901D, 0x82AA6728, 0xD3A49608, 0xC82F758B, 0xC65AFB9D);
  }

  lemma Rounds2()
    ensures Rounds(INITIAL, BLOCK, 30) == Chain(0xC5FBAF5D, 0x8370B52E, 0xD2AA1365, 0x6F8D7EF5, 0x12104EE9)
  {
    Rounds1();
    Words1();
    assert Rounds(INITIAL, BLOCK, 21) == Chain(0x1A37B0CA, 0xFD9E1D7D, 0x77192407, 0x20AA99CA, 0xD3A49608);
    assert Rounds(INITIAL, BLOCK, 22) == Chain(0x33A23BFC, 0x1A37B0CA, 0x7F67875F, 0x77192407, 0x20AA99CA);
    assert Rounds(INITIAL, BLOCK, 23) == Chain(0x21283486, 0x33A23BFC, 0x868DEC32, 0x7F67875F, 0x77192407);
    assert Rounds(INITIAL, BLOCK, 24) == Chain(0xD541F12D, 0x21283486, 0x0CE88EFF, 0x868DEC32, 0x7F67875F);
    assert Rounds(INITIAL, BLOCK, 25) == Chain(0xC7567DC6, 0xD541F12D, 0x884A0D21, 0x0CE88EFF, 0x868DEC32);
    assert Rounds(INITIAL, BLOCK, 26) == Chain(0x48413BA4, 0xC7567DC6, 0x75507C4B, 0x884A0D21, 0x0CE88EFF);
    assert Rounds(INITIAL, BLOCK, 27) == Chain(0xBE35FBD5, 0x48413BA4, 0xB1D59F71, 0x75507C4B, 0x884A0D21);
    assert Rounds(INITIAL, BLOCK, 28) == Chain(0x4AA84D97, 0xBE35FBD5, 0x12104EE9, 0xB1D59F71, 0x75507C4B);
    assert Rounds(INITIAL, BLOCK, 29) == Chain(0x8370B52E, 0x4AA84D97, 0x6F8D7EF5, 0x12104EE9, 0xB1D59F71);
  }

  lemma Rounds3()
    ensures Rounds(INITIAL, BLOCK, 40) == Chain(0x32DE1CBA, 0x4C986405, 0xF718E5CF, 0x03D447F6, 0xF72EEC32)
  {
    Rounds2();
    Words1();
    Words2();
    assert Rounds(INITIAL, BLOCK, 31) == Chain(0x1267B407, 0xC5FBAF5D, 0xA0DC2D4B, 0xD2AA1365, 0x6F8D7EF5);
    assert Rounds(INITIAL, BLOCK, 32) == Chain(0x3B845D33, 0x1267B407, 0x717EEBD7, 0xA0DC2D4B, 0xD2AA1365);
    assert Rounds(INITIAL, BLOCK, 33) == Chain(0x046FAA0A, 0x3B845D33, 0xC499ED01, 0x717EEBD7, 0xA0DC2D4B);
    assert Rounds(INITIAL, BLOCK, 34) == Chain(0x2C0EBC11, 0x046FAA0A, 0xCEE1174C, 0xC499ED01, 0x717EEBD7);
    assert Rounds(INITIAL, BLOCK, 35) == Chain(0x21796AD4, 0x2C0EBC11, 0x811BEA82, 0xCEE1174C, 0xC499ED01);
    assert Rounds(INITIAL, BLOCK, 36) == Chain(0xDCBBB0CB, 0x21796AD4, 0x4B03AF04, 0x811BEA82, 0xCEE1174C);
    assert Rounds(INITIAL, BLOCK, 37) == Chain(0x0F511FD8, 0xDCBBB0CB, 0x085E5AB5, 0x4B03AF04, 0x811BEA82);
    assert Rounds(INITIAL, BLOCK, 38) == Chain(0xDC63973F, 0x0F511FD8, 0xF72EEC32, 0x085E5AB5, 0x4B03AF04);
    assert Rounds(INITIAL, BLOCK, 39) == Chain(0x4C986405, 0xDC63973F, 0x03D447F6, 0xF72EEC32, 0x085E5AB5);
  }

  lemma Rounds4()
    ensures Rounds(INITIAL, BLOCK, 50) == Chain(0x120731C5, 0xBAF39337, 0xAFAB40B2, 0x2806E11B, 0x8714787C)
  {
    Rounds3();
    Words2();
    Words3();
    assert Rounds(INITIAL, BLOCK, 41) == Chain(0xFC87DEDF, 0x32DE1CBA, 0x53261901, 0xF718E5CF, 0x03D447F6);
    assert Rounds(INITIAL, BLOCK, 42) == Chain(0x970A0D5C, 0xFC87DEDF, 0x8CB7872E, 0x53261901, 0xF718E5CF);
    assert Rounds(INITIAL, BLOCK, 43) == Chain(0x7F193DC5, 0x970A0D5C, 0xFF21F7B7, 0x8CB7872E, 0x53261901);
    assert Rounds(INITIAL, BLOCK, 44) == Chain(0xEE1B1AAF, 0x7F193DC5, 0x25C28357, 0xFF21F7B7, 0x8CB7872E);
    assert Rounds(INITIAL, BLOCK, 45) == Chain(0x40F28E09, 0xEE1B1AAF, 0x5FC64F71, 0x25C28357, 0xFF21F7B7);
    assert Rounds(INITIAL, BLOCK, 46) == Chain(0x1C51E1F2, 0x40F28E09, 0xFB86C6AB, 0x5FC64F71, 0x25C28357);
    assert Rounds(INITIAL, BLOCK, 47) == Chain(0xA01B846C, 0x1C51E1F2, 0x503CA382, 0xFB86C6AB, 0x5FC64F71);
    assert Rounds(INITIAL, BLOCK, 48) == Chain(0xBEAD02CA, 0xA01B846C, 0x8714787C, 0x503CA382, 0xFB86C6AB);
    assert Rounds(INITIAL, BLOCK, 49) == Chain(0xBAF39337, 0xBEAD02CA, 0x2806E11B, 0x8714787C, 0x503CA382);
  }

  lemma Rounds5()
    ensures Rounds(INITIAL, BLOCK, 60) == Chain(0x3F52DE5A, 0x09D785FD, 0x3498BFD4, 0xF211824F, 0xD79915AB)
  {
    Rounds4();
    Words3();
    assert Rounds(INITIAL, BLOCK, 51) == Chain(0x641DB2CE, 0x120731C5, 0xEEBCE4CD, 0xAFAB40B2, 0x2806E11B);
    assert Rounds(INITIAL, BLOCK, 52) == Chain(0x3847AD66, 0x641DB2CE, 0x4481CC71, 0xEEBCE4CD, 0xAFAB40B2);
    assert Rounds(INITIAL, BLOCK, 53) == Chain(0xE490436D, 0x3847AD66, 0x99076CB3, 0x4481CC71, 0xEEBCE4CD);
    assert Rounds(INITIAL, BLOCK, 54) == Chain(0x27E9F1D8, 0xE490436D, 0x8E11EB59, 0x99076CB3, 0x4481CC71);
    assert Rounds(INITIAL, BLOCK, 55) == Chain(0x7B71F76D, 0x27E9F1D8, 0x792410DB, 0x8E11EB59, 0x99076CB3);
    assert Rounds(INITIAL, BLOCK, 56) == Chain(0x5E6456AF, 0x7B71F76D, 0x09FA7C76, 0x792410DB, 0x8E11EB59);
    assert Rounds(INITIAL, BLOCK, 57) == Chain(0xC846093F, 0x5E6456AF, 0x5EDC7DDB, 0x09FA7C76, 0x792410DB);
    assert Rounds(INITIAL, BLOCK, 58) == Chain(0xD262FF50, 0xC846093F, 0xD79915AB, 0x5EDC7DDB, 0x09FA7C76);
    assert Rounds(INITIAL, BLOCK, 59) == Chain(0x09D785FD, 0xD262FF50, 0xF211824F, 0xD79915AB, 0x5EDC7DDB);
  }

  lemma Rounds6()
    ensures Rounds(INITIAL, BLOCK, 70) == Chain(0x3F2588C2, 0x497093C0, 0xDE37534A, 0x030F7CAD, 0x4405957E)
  {
    Rounds5();
    Words3();
    Words4();
    assert Rounds(INITIAL, BLOCK, 61) == Chain(0xD756C147, 0x3F52DE5A, 0x4275E17F, 0x3498BFD4, 0xF211824F);
    assert Rounds(INITIAL, BLOCK, 62) == Chain(0x548C9CB2, 0xD756C147, 0x8FD4B796, 0x4275E17F, 0x3498BFD4);
    assert Rounds(INITIAL, BLOCK, 63) == Chain(0xB66C020B, 0x548C9CB2, 0xF5D5B051, 0x8FD4B796, 0x4275E17F);
    assert Rounds(INITIAL, BLOCK, 64) == Chain(0x6B61C9E1, 0xB66C020B, 0x9523272C, 0xF5D5B051, 0x8FD4B796);
    assert Rounds(INITIAL, BLOCK, 65) == Chain(0x19DFA7AC, 0x6B61C9E1, 0xED9B0082, 0x9523272C, 0xF5D5B051);
    assert Rounds(INITIAL, BLOCK, 66) == Chain(0x101655F9, 0x19DFA7AC, 0x5AD87278, 0xED9B0082, 0x9523272C);
    assert Rounds(INITIAL, BLOCK, 67) == Chain(0x0C3DF2B4, 0x101655F9, 0x0677E9EB, 0x5AD87278, 0xED9B0082);
    assert Rounds(INITIAL, BLOCK, 68) == Chain(0x78DD4D2B, 0x0C3DF2B4, 0x4405957E, 0x0677E9EB, 0x5AD87278);
    assert Rounds(INITIAL, BLOCK, 69) == Chain(0x497093C0, 0x78DD4D2B, 0x030F7CAD, 0x4405957E, 0x0677E9EB);
  }

  lemma Rounds7()
    ensures Rounds(INITIAL, BLOCK, 80) == Chain(0x42541B35, 0x5738D5E1, 0x21834873, 0x681E6DF6, 0xD8FDF6AD)
  {
    Rounds6();
    Words4();
    assert Rounds(INITIAL, BLOCK, 71) == Chain(0xC199F8C7, 0x3F2588C2, 0x125C24F0, 0xDE37534A, 0x030F7CAD);
    assert Rounds(INITIAL, BLOCK, 72) == Chain(0x39859DE7, 0xC199F8C7, 0x8FC96230, 0x125C24F0, 0xDE37534A);
    assert Rounds(INITIAL, BLOCK, 73) == Chain(0xEDB42DE4, 0x39859DE7, 0xF0667E31, 0x8FC96230, 0x125C24F0);
    assert Rounds(INITIAL, BLOCK, 74) == Chain(0x11793F6F, 0xEDB42DE4, 0xCE616779, 0xF0667E31, 0x8FC96230);
    assert Rounds(INITIAL, BLOCK, 75) == Chain(0x5EE76897, 0x11793F6F, 0x3B6D0B79, 0xCE616779, 0xF0667E31);
    assert Rounds(INITIAL, BLOCK, 76) == Chain(0x63F7DAB7, 0x5EE76897, 0xC45E4FDB, 0x3B6D0B79, 0xCE616779);
    assert Rounds(INITIAL, BLOCK, 77) == Chain(0xA079B7D9, 0x63F7DAB7, 0xD7B9DA25, 0xC45E4FDB, 0x3B6D0B79);
    assert Rounds(INITIAL, BLOCK, 78) == Chain(0x860D21CC, 0xA079B7D9, 0xD8FDF6AD, 0xD7B9DA25, 0xC45E4FDB);
    assert Rounds(INITIAL, BLOCK, 79) == Chain(0x5738D5E1, 0x860D21CC, 0x681E6DF6, 0xD8FDF6AD, 0xD7B9DA25);
  }

  lemma Padded()
    ensures Pad(ABC) == BLOCK
  {
    assert BigEndian(24, 1) == [24];
    assert BigEndian(24, 8) == [0, 0, 0, 0, 0, 0, 0, 24];
    hide BigEndian;
    PackedLength([0, 0, 0, 0, 0, 0, 0, 24]);
    assert PadZeros(3) == 52 && BitLength(3) == 24;
    hide Packed, Zeros;
  }

  lemma PackedLength(s: bytes)
    requires s == [0, 0, 0, 0, 0, 0, 0, 24]
    ensures Packed(s) == [0, 0, 0, 0, 0, 0, 0, 24]
  {
    assert Octet(0) == 0 && Octet(24) == 24;
    hide Octet;
  }

  lemma OneBlock(h: Chain, block: octets)
    requires |block| == 64
    ensures Hash(h, block) == Compress(h, block)
  {
    hide Compress;
    assert block[..0] == [] && block[0..] == block;
  }

  lemma Compressed()
    ensures Compress(INITIAL, BLOCK) == Chain(0xA9993E36, 0x4706816A, 0xBA3E2571, 0x7850C26C, 0x9CD0D89D)
  {
    Rounds7();
    hide Rounds;
  }

  lemma DigestWords()
    ensures WordOctets(0xA9993E36) == [0xA9, 0x99, 0x3E, 0x36]
    ensures WordOctets(0x4706816A) == [0x47, 0x06, 0x81, 0x6A]
    ensures WordOctets(0xBA3E2571) == [0xBA, 0x3E, 0x25, 0x71]
    ensures WordOctets(0x7850C26C) == [0x78, 0x50, 0xC2, 0x6C]
    ensures WordOctets(0x9CD0D89D) == [0x9C, 0xD0, 0xD8, 0x9D]
  {
  }

  lemma Digest(h: Chain)
    requires h == Chain(0xA9993E36, 0x4706816A, 0xBA3E2571, 0x7850C26C, 0x9CD0D89D)
    ensures DigestOf(h) ==
      [0xA9, 0x99, 0x3E, 0x36, 0x47, 0x06, 0x81, 0x6A, 0xBA, 0x3E,
       0x25, 0x71, 0x78, 0x50, 0xC2, 0x6C, 0x9C, 0xD0, 0xD8, 0x9D]
  {
    DigestWords();
    hide WordOctets;
  }

  /** A9993E36 4706816A BA3E2571 7850C26C 9CD0D89D. */
  lemma Abc()
    ensures Sha1Of(ABC) ==
      [0xA9, 0x99, 0x3E, 0x36, 0x47, 0x06, 0x81, 0x6A, 0xBA, 0x3E,
       0x25, 0x71, 0x78, 0x50, 0xC2, 0x6C, 0x9C, 0xD0, 0xD8, 0x9D]
  {
    hide *;
    Padded();
    Compressed();
    BlockSize();
    OneBlock(INITIAL, BLOCK);
    Digest(Compress(INITIAL, BLOCK));
    WholeIs();
  }

  lemma BlockSize()
    ensures |BLOCK| == 64
  {
  }

  lemma WholeIs()
    ensures |Pad(ABC)| % 64 == 0 && Sha1Of(ABC) == DigestOf(Hash(INITIAL, Pad(ABC)))
  {
    PaddedSize(ABC);
    hide Pad, DigestOf, Hash;
  }
}
