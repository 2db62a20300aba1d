/** The five identifier pairs `test_bv_to_av` in `bvs.py` checks, each worked out through the
    model: the xor, the 9 base-58 digits, their letters and the swap. */
module BvsVectors {
  import opened Wrappers
  import opened Bits
  import opened Bvs

  /** The identifier spelled by the digits `d0` to `d8`, whose letters are `l0` to `l8`:
      after the swap the letters stand in the order 6, 4, 2, 3, 1, 5, 0, 7, 8. */
  lemma Spelled(d0: nat, d1: nat, d2: nat, d3: nat, d4: nat, d5: nat, d6: nat, d7: nat, d8: nat,
                l0: char, l1: char, l2: char, l3: char, l4: char, l5: char, l6: char, l7: char, l8: char)
    requires d0 < Base && d1 < Base && d2 < Base && d3 < Base && d4 < Base
    requires d5 < Base && d6 < Base && d7 < Base && d8 < Base
    requires Alphabet[d0] == l0 && Alphabet[d1] == l1 && Alphabet[d2] == l2
    requires Alphabet[d3] == l3 && Alphabet[d4] == l4 && Alphabet[d5] == l5
    requires Alphabet[d6] == l6 && Alphabet[d7] == l7 && Alphabet[d8] == l8
    ensures IsDigits([d0, d1, d2, d3, d4, d5, d6, d7, d8])
    ensures Swapped(Prefix + Letters([d0, d1, d2, d3, d4, d5, d6, d7, d8]))
      == ['B', 'V', '1', l6, l4, l2, l3, l1, l5, l0, l7, l8]
  {
    var s := Prefix + Letters([d0, d1, d2, d3, d4, d5, d6, d7, d8]);
    assert s == ['B', 'V', '1', l0, l1, l2, l3, l4, l5, l6, l7, l8];
  }

  // The letters of the alphabet, eight positions per lemma.
  lemma AlphabetAt0()
    ensures Alphabet[0] == 'F' && Alphabet[1] == 'c' && Alphabet[2] == 'w' && Alphabet[3] == 'A'
    ensures Alphabet[4] == 'P' && Alphabet[5] == 'N' && Alphabet[6] == 'K' && Alphabet[7] == 'T'
  {
  }

  lemma AlphabetAt8()
    ensures Alphabet[8] == 'M' && Alphabet[9] == 'u' && Alphabet[10] == 'g' && Alphabet[11] == '3'
    ensures Alphabet[12] == 'G' && Alphabet[13] == 'V' && Alphabet[14] == '5' && Alphabet[15] == 'L'
  {
  }

  lemma AlphabetAt16()
    ensures Alphabet[16] == 'j' && Alphabet[17] == '7' && Alphabet[18] == 'E' && Alphabet[19] == 'J'
    ensures Alphabet[20] == 'n' && Alphabet[21] == 'H' && Alphabet[22] == 'p' && Alphabet[23] == 'W'
  {
  }

  lemma AlphabetAt24()
    ensures Alphabet[24] == 's' && Alphabet[25] == 'x' && Alphabet[26] == '4' && Alphabet[27] == 't'
    ensures Alphabet[28] == 'b' && Alphabet[29] == '8' && Alphabet[30] == 'h' && Alphabet[31] == 'a'
  {
  }

  lemma AlphabetAt32()
    ensures Alphabet[32] == 'Y' && Alphabet[33] == 'e' && Alphabet[34] == 'v' && Alphabet[35] == 'i'
    ensures Alphabet[36] == 'q' && Alphabet[37] == 'B' && Alphabet[38] == 'z' && Alphabet[39] == '6'
  {
  }

  lemma AlphabetAt40()
    ensures Alphabet[40] == 'r' && Alphabet[41] == 'k' && Alphabet[42] == 'C' && Alphabet[43] == 'y'
    ensures Alphabet[44] == '1' && Alphabet[45] == '2' && Alphabet[46] == 'm' && Alphabet[47] == 'U'
  {
  }

  lemma AlphabetAt48()
    ensures Alphabet[48] == 'S' && Alphabet[49] == 'D' && Alphabet[50] == 'Q' && Alphabet[51] == 'X'
    ensures Alphabet[52] == '9' && Alphabet[53] == 'R' && Alphabet[54] == 'd' && Alphabet[55] == 'o'
  {
  }

  lemma AlphabetAt56()
    ensures Alphabet[56] == 'Z' && Alphabet[57] == 'f'
  {
  }

  lemma XorOf100()
    ensures Xor(100, XorCode) == 23442827791551
  {
    XorZero(183147092121);
    assert Xor(1, 366294184243) == 366294184242;
    assert Xor(3, 732588368486) == 732588368485;
    assert Xor(6, 1465176736973) == 1465176736971;
    assert Xor(12, 2930353473947) == 2930353473943;
    assert Xor(25, 5860706947894) == 5860706947887;
    assert Xor(50, 11721413895789) == 11721413895775;
  }


  lemma DigitsOf100()
    ensures Digits58(2275242641476799, 9) == [17, 44, 26, 44, 25, 1, 25, 46, 23]
  {
    assert Digits58(17, 1) == [17];
    assert Digits58(1030, 2) == [17, 44];
    assert Digits58(59766, 3) == [17, 44, 26];
    assert Digits58(3466472, 4) == [17, 44, 26, 44];
    assert Digits58(201055401, 5) == [17, 44, 26, 44, 25];
    assert Digits58(11661213259, 6) == [17, 44, 26, 44, 25, 1];
    assert Digits58(676350369047, 7) == [17, 44, 26, 44, 25, 1, 25];
    assert Digits58(39228321404772, 8) == [17, 44, 26, 44, 25, 1, 25, 46];
  }

  lemma Spells100()
    ensures IsDigits([17, 44, 26, 44, 25, 1, 25, 46, 23]) && Swapped(Prefix + Letters([17, 44, 26, 44, 25, 1, 25, 46, 23])) == "BV1xx411c7mW"
  {
    AlphabetAt0();
    AlphabetAt16();
    AlphabetAt24();
    AlphabetAt40();
    Spelled(17, 44, 26, 44, 25, 1, 25, 46, 23, '7', '1', '4', '1', 'x', 'c', 'x', 'm', 'W');
  }

  lemma Encodes100()
    ensures Encode(100) == Ok("BV1xx411c7mW")
  {
    ConstantsAgree();
    XorOf100();
    TmpRange(100);
    DigitsOf100();
    EncodeInRange(100);
    Spells100();
  }

  /** `av_to_bv(100) == "BV1xx411c7mW"` and `bv_to_av("BV1xx411c7mW") == 100`. */
  lemma Vector100()
    ensures Encode(100) == Ok("BV1xx411c7mW")
    ensures Decode("BV1xx411c7mW") == Ok(100)
  {
    Encodes100();
    RoundTrip(100);
  }

  lemma XorOf10000()
    ensures Xor(10000, XorCode) == 23442827799499
  {
    XorZero(1430836657);
    assert Xor(1, 2861673314) == 2861673315;
    assert Xor(2, 5723346628) == 5723346630;
    assert Xor(4, 11446693257) == 11446693261;
    assert Xor(9, 22893386515) == 22893386522;
    assert Xor(19, 45786773030) == 45786773045;
    assert Xor(39, 91573546060) == 91573546091;
    assert Xor(78, 183147092121) == 183147092183;
    assert Xor(156, 366294184243) == 366294184367;
    assert Xor(312, 732588368486) == 732588368734;
    assert Xor(625, 1465176736973) == 1465176737468;
    assert Xor(1250, 2930353473947) == 2930353474937;
    assert Xor(2500, 5860706947894) == 5860706949874;
    assert Xor(5000, 11721413895789) == 11721413899749;
  }


  lemma DigitsOf10000()
    ensures Digits58(2275242641484747, 9) == [17, 44, 26, 44, 25, 1, 28, 9, 25]
  {
    assert Digits58(17, 1) == [17];
    assert Digits58(1030, 2) == [17, 44];
    assert Digits58(59766, 3) == [17, 44, 26];
    assert Digits58(3466472, 4) == [17, 44, 26, 44];
    assert Digits58(201055401, 5) == [17, 44, 26, 44, 25];
    assert Digits58(11661213259, 6) == [17, 44, 26, 44, 25, 1];
    assert Digits58(676350369050, 7) == [17, 44, 26, 44, 25, 1, 28];
    assert Digits58(39228321404909, 8) == [17, 44, 26, 44, 25, 1, 28, 9];
  }

  lemma Spells10000()
    ensures IsDigits([17, 44, 26, 44, 25, 1, 28, 9, 25]) && Swapped(Prefix + Letters([17, 44, 26, 44, 25, 1, 28, 9, 25])) == "BV1bx411c7ux"
  {
    AlphabetAt0();
    AlphabetAt8();
    AlphabetAt16();
    AlphabetAt24();
    AlphabetAt40();
    Spelled(17, 44, 26, 44, 25, 1, 28, 9, 25, '7', '1', '4', '1', 'x', 'c', 'b', 'u', 'x');
  }

  lemma Encodes10000()
    ensures Encode(10000) == Ok("BV1bx411c7ux")
  {
    ConstantsAgree();
    XorOf10000();
    TmpRange(10000);
    DigitsOf10000();
    EncodeInRange(10000);
    Spells10000();
  }

  /** `av_to_bv(10000) == "BV1bx411c7ux"` and `bv_to_av("BV1bx411c7ux") == 10000`. */
  lemma Vector10000()
    ensures Encode(10000) == Ok("BV1bx411c7ux")
    ensures Decode("BV1bx411c7ux") == Ok(10000)
  {
    Encodes10000();
    RoundTrip(10000);
  }

  lemma XorOf10000000Above8()
    ensures Xor(39062, 91573546060) == 91573581018
  {
    XorZero(1397301);
    assert Xor(1, 2794602) == 2794603;
    assert Xor(2, 5589205) == 5589207;
    assert Xor(4, 11178411) == 11178415;
    assert Xor(9, 22356822) == 22356831;
    assert Xor(19, 44713645) == 44713662;
    assert Xor(38, 89427291) == 89427325;
    assert Xor(76, 178854582) == 178854650;
    assert Xor(152, 357709164) == 357709300;
    assert Xor(305, 715418328) == 715418601;
    assert Xor(610, 1430836657) == 1430837203;
    assert Xor(1220, 2861673314) == 2861674406;
    assert Xor(2441, 5723346628) == 5723348813;
    assert Xor(4882, 11446693257) == 11446697627;
    assert Xor(9765, 22893386515) == 22893395254;
    assert Xor(19531, 45786773030) == 45786790509;
  }

  lemma XorOf10000000()
    ensures Xor(10000000, XorCode) == 23442836740699
  {
    XorOf10000000Above8();
    assert Xor(78125, 183147092121) == 183147162036;
    assert Xor(156250, 366294184243) == 366294324073;
    assert Xor(312500, 732588368486) == 732588648146;
    assert Xor(625000, 1465176736973) == 1465177296293;
    assert Xor(1250000, 2930353473947) == 2930354592587;
    assert Xor(2500000, 5860706947894) == 5860709185174;
    assert Xor(5000000, 11721413895789) == 11721418370349;
  }


  lemma DigitsOf10000000()
    ensures Digits58(2275242650425947, 9) == [17, 44, 26, 44, 25, 47, 18, 4, 3]
  {
    assert Digits58(17, 1) == [17];
    assert Digits58(1030, 2) == [17, 44];
    assert Digits58(59766, 3) == [17, 44, 26];
    assert Digits58(3466472, 4) == [17, 44, 26, 44];
    assert Digits58(201055401, 5) == [17, 44, 26, 44, 25];
    assert Digits58(11661213305, 6) == [17, 44, 26, 44, 25, 47];
    assert Digits58(676350371708, 7) == [17, 44, 26, 44, 25, 47, 18];
    assert Digits58(39228321559068, 8) == [17, 44, 26, 44, 25, 47, 18, 4];
  }

  lemma Spells10000000()
    ensures IsDigits([17, 44, 26, 44, 25, 47, 18, 4, 3]) && Swapped(Prefix + Letters([17, 44, 26, 44, 25, 47, 18, 4, 3])) == "BV1Ex411U7PA"
  {
    AlphabetAt0();
    AlphabetAt16();
    AlphabetAt24();
    AlphabetAt40();
    Spelled(17, 44, 26, 44, 25, 47, 18, 4, 3, '7', '1', '4', '1', 'x', 'U', 'E', 'P', 'A');
  }

  lemma Encodes10000000()
    ensures Encode(10000000) == Ok("BV1Ex411U7PA")
  {
    ConstantsAgree();
    XorOf10000000();
    TmpRange(10000000);
    DigitsOf10000000();
    EncodeInRange(10000000);
    Spells10000000();
  }

  /** `av_to_bv(10000000) == "BV1Ex411U7PA"` and `bv_to_av("BV1Ex411U7PA") == 10000000`. */
  lemma Vector10000000()
    ensures Encode(10000000) == Ok("BV1Ex411U7PA")
    ensures Decode("BV1Ex411U7PA") == Ok(10000000)
  {
    Encodes10000000();
    RoundTrip(10000000);
  }

  lemma XorOf115519722102585Above31()
    ensures Xor(53793, 10916) == 63621
  {
    XorZero(0);
    assert Xor(1, 0) == 1;
    assert Xor(3, 0) == 3;
    assert Xor(6, 1) == 7;
    assert Xor(13, 2) == 15;
    assert Xor(26, 5) == 31;
    assert Xor(52, 10) == 62;
    assert Xor(105, 21) == 124;
    assert Xor(210, 42) == 248;
    assert Xor(420, 85) == 497;
    assert Xor(840, 170) == 994;
    assert Xor(1681, 341) == 1988;
    assert Xor(3362, 682) == 3976;
    assert Xor(6724, 1364) == 7952;
    assert Xor(13448, 2729) == 15905;
    assert Xor(26896, 5458) == 31810;
  }

  lemma XorOf115519722102585Above15()
    ensures Xor(3525382144, 715418328) == 4169497304
  {
    XorOf115519722102585Above31();
    assert Xor(107586, 21832) == 127242;
    assert Xor(215172, 43665) == 254485;
    assert Xor(430344, 87331) == 508971;
    assert Xor(860689, 174662) == 1017943;
    assert Xor(1721378, 349325) == 2035887;
    assert Xor(3442756, 698650) == 4071774;
    assert Xor(6885512, 1397301) == 8143549;
    assert Xor(13771024, 2794602) == 16287098;
    assert Xor(27542048, 5589205) == 32574197;
    assert Xor(55084096, 11178411) == 65148395;
    assert Xor(110168192, 22356822) == 130296790;
    assert Xor(220336384, 44713645) == 260593581;
    assert Xor(440672768, 89427291) == 521187163;
    assert Xor(881345536, 178854582) == 1042374326;
    assert Xor(1762691072, 357709164) == 2084748652;
  }

  lemma XorOf115519722102585()
    ensures Xor(115519722102585, XorCode) == 136626087678946
  {
    XorOf115519722102585Above15();
    assert Xor(7050764288, 1430836657) == 8338994609;
    assert Xor(14101528576, 2861673314) == 16677989218;
    assert Xor(28203057153, 5723346628) == 33355978437;
    assert Xor(56406114307, 11446693257) == 66711956874;
    assert Xor(112812228615, 22893386515) == 133423913748;
    assert Xor(225624457231, 45786773030) == 266847827497;
    assert Xor(451248914463, 91573546060) == 533695654995;
    assert Xor(902497828926, 183147092121) == 1067391309991;
    assert Xor(1804995657852, 366294184243) == 2134782619983;
    assert Xor(3609991315705, 732588368486) == 4269565239967;
    assert Xor(7219982631411, 1465176736973) == 8539130479934;
    assert Xor(14439965262823, 2930353473947) == 17078260959868;
    assert Xor(28879930525646, 5860706947894) == 34156521919736;
    assert Xor(57759861051292, 11721413895789) == 68313043839473;
  }


  lemma DigitsOf115519722102585()
    ensures Digits58(2388425901364194, 9) == [18, 37, 41, 52, 6, 7, 8, 44, 18]
  {
    assert Digits58(18, 1) == [18];
    assert Digits58(1081, 2) == [18, 37];
    assert Digits58(62739, 3) == [18, 37, 41];
    assert Digits58(3638914, 4) == [18, 37, 41, 52];
    assert Digits58(211057018, 5) == [18, 37, 41, 52, 6];
    assert Digits58(12241307051, 6) == [18, 37, 41, 52, 6, 7];
    assert Digits58(709995808966, 7) == [18, 37, 41, 52, 6, 7, 8];
    assert Digits58(41179756920072, 8) == [18, 37, 41, 52, 6, 7, 8, 44];
  }

  lemma Spells115519722102585()
    ensures IsDigits([18, 37, 41, 52, 6, 7, 8, 44, 18]) && Swapped(Prefix + Letters([18, 37, 41, 52, 6, 7, 8, 44, 18])) == "BV1MKk9BTE1E"
  {
    AlphabetAt0();
    AlphabetAt8();
    AlphabetAt16();
    AlphabetAt32();
    AlphabetAt40();
    AlphabetAt48();
    Spelled(18, 37, 41, 52, 6, 7, 8, 44, 18, 'E', 'B', 'k', '9', 'K', 'T', 'M', '1', 'E');
  }

  lemma Encodes115519722102585()
    ensures Encode(115519722102585) == Ok("BV1MKk9BTE1E")
  {
    ConstantsAgree();
    XorOf115519722102585();
    TmpRange(115519722102585);
    DigitsOf115519722102585();
    EncodeInRange(115519722102585);
    Spells115519722102585();
  }

  /** `av_to_bv(115519722102585) == "BV1MKk9BTE1E"` and `bv_to_av("BV1MKk9BTE1E") == 115519722102585`. */
  lemma Vector115519722102585()
    ensures Encode(115519722102585) == Ok("BV1MKk9BTE1E")
    ensures Decode("BV1MKk9BTE1E") == Ok(115519722102585)
  {
    Encodes115519722102585();
    RoundTrip(115519722102585);
  }

  lemma XorOf115626945283535Above31()
    ensures Xor(53842, 10916) == 63734
  {
    XorZero(0);
    assert Xor(1, 0) == 1;
    assert Xor(3, 0) == 3;
    assert Xor(6, 1) == 7;
    assert Xor(13, 2) == 15;
    assert Xor(26, 5) == 31;
    assert Xor(52, 10) == 62;
    assert Xor(105, 21) == 124;
    assert Xor(210, 42) == 248;
    assert Xor(420, 85) == 497;
    assert Xor(841, 170) == 995;
    assert Xor(1682, 341) == 1991;
    assert Xor(3365, 682) == 3983;
    assert Xor(6730, 1364) == 7966;
    assert Xor(13460, 2729) == 15933;
    assert Xor(26921, 5458) == 31867;
  }

  lemma XorOf115626945283535Above15()
    ensures Xor(3528654336, 715418328) == 4176909528
  {
    XorOf115626945283535Above31();
    assert Xor(107685, 21832) == 127469;
    assert Xor(215371, 43665) == 254938;
    assert Xor(430743, 87331) == 509876;
    assert Xor(861487, 174662) == 1019753;
    assert Xor(1722975, 349325) == 2039506;
    assert Xor(3445951, 698650) == 4079013;
    assert Xor(6891903, 1397301) == 8158026;
    assert Xor(13783806, 2794602) == 16316052;
    assert Xor(27567612, 5589205) == 32632105;
    assert Xor(55135224, 11178411) == 65264211;
    assert Xor(110270448, 22356822) == 130528422;
    assert Xor(220540896, 44713645) == 261056845;
    assert Xor(441081792, 89427291) == 522113691;
    assert Xor(882163584, 178854582) == 1044227382;
    assert Xor(1764327168, 357709164) == 2088454764;
  }

  lemma XorOf115626945283535()
    ensures Xor(115626945283535, XorCode) == 136868971432212
  {
    XorOf115626945283535Above15();
    assert Xor(7057308672, 1430836657) == 8353819057;
    assert Xor(14114617344, 2861673314) == 16707638114;
    assert Xor(28229234688, 5723346628) == 33415276228;
    assert Xor(56458469376, 11446693257) == 66830552457;
    assert Xor(112916938753, 22893386515) == 133661104914;
    assert Xor(225833877506, 45786773030) == 267322209828;
    assert Xor(451667755013, 91573546060) == 534644419657;
    assert Xor(903335510027, 183147092121) == 1069288839314;
    assert Xor(1806671020055, 366294184243) == 2138577678628;
    assert Xor(3613342040110, 732588368486) == 4277155357256;
    assert Xor(7226684080220, 1465176736973) == 8554310714513;
    assert Xor(14453368160441, 2930353473947) == 17108621429026;
    assert Xor(28906736320883, 5860706947894) == 34217242858053;
    assert Xor(57813472641767, 11721413895789) == 68434485716106;
  }


  lemma DigitsOf115626945283535()
    ensures Digits58(2388668785117460, 9) == [18, 37, 48, 16, 8, 53, 50, 38, 40]
  {
    assert Digits58(18, 1) == [18];
    assert Digits58(1081, 2) == [18, 37];
    assert Digits58(62746, 3) == [18, 37, 48];
    assert Digits58(3639284, 4) == [18, 37, 48, 16];
    assert Digits58(211078480, 5) == [18, 37, 48, 16, 8];
    assert Digits58(12242551893, 6) == [18, 37, 48, 16, 8, 53];
    assert Digits58(710068009844, 7) == [18, 37, 48, 16, 8, 53, 50];
    assert Digits58(41183944570990, 8) == [18, 37, 48, 16, 8, 53, 50, 38];
  }

  lemma Spells115626945283535()
    ensures IsDigits([18, 37, 48, 16, 8, 53, 50, 38, 40]) && Swapped(Prefix + Letters([18, 37, 48, 16, 8, 53, 50, 38, 40])) == "BV1QMSjBREzr"
  {
    AlphabetAt8();
    AlphabetAt16();
    AlphabetAt32();
    AlphabetAt40();
    AlphabetAt48();
    Spelled(18, 37, 48, 16, 8, 53, 50, 38, 40, 'E', 'B', 'S', 'j', 'M', 'R', 'Q', 'z', 'r');
  }

  lemma Encodes115626945283535()
    ensures Encode(115626945283535) == Ok("BV1QMSjBREzr")
  {
    ConstantsAgree();
    XorOf115626945283535();
    TmpRange(115626945283535);
    DigitsOf115626945283535();
    EncodeInRange(115626945283535);
    Spells115626945283535();
  }

  /** `av_to_bv(115626945283535) == "BV1QMSjBREzr"` and `bv_to_av("BV1QMSjBREzr") == 115626945283535`. */
  lemma Vector115626945283535()
    ensures Encode(115626945283535) == Ok("BV1QMSjBREzr")
    ensures Decode("BV1QMSjBREzr") == Ok(115626945283535)
  {
    Encodes115626945283535();
    RoundTrip(115626945283535);
  }

  /** The guards of `bv_to_av` on malformed identifiers. */
  lemma RejectsEmpty()
    ensures Decode("") == Err(EmptyBv)
  {
  }

  lemma RejectsShort()
    ensures Decode("BV1xx411c7m") == Err(BadLength(11))
  {
  }

  lemma RejectsPrefix()
    ensures Decode("AV1xx411c7mW") == Err(BadPrefix("AV1"))
  {
    var bv := "AV1xx411c7mW";
    assert bv[..3] == "AV1" && Upper("AV1") == "AV1";
  }

  lemma AcceptsLowerPrefix()
    ensures Decode("bv1xx411c7mW") == Ok(100)
  {
    var lower, upper := "bv1xx411c7mW", "BV1xx411c7mW";
    assert lower[..3] == "bv1" && upper[..3] == "BV1";
    assert Upper("bv1") == "BV1";
    assert lower[3..] == upper[3..];
    Vector100();
    DecodeIgnoresPrefixCase(lower, upper);
  }
}
