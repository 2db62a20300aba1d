/** The AV <-> BV identifier codec of `bvs.py`: a numeric video id `aid` in `[1, 2^51)` is
    or-ed with `2^51`, xor-ed with a fixed code, written as 9 base-58 digits over a custom
    alphabet after the prefix "BV1", and four positions are swapped. Decoding validates the
    string, undoes the swap, reads the base-58 number back, checks its width, masks and
    xors it, and checks the range again. Every `raise ValueError` is an `Err`. */
module Bvs {
  import opened Wrappers
  import opened Bits

  const XorCode: nat := 23442827791579
  const MaskCode: nat := 2251799813685247
  const MinAid: int := 1
  /** `1 << 51` */
  const MaxAid: nat := Pow2(51)
  const Base: nat := 58
  const BvLen: nat := 12
  const Prefix: string := "BV1"
  /** The buffer `av_to_bv` starts from before it writes the digits. */
  const Blank: string := "BV1000000000"

  /** `ALPHABET`, written in chunks of eight characters. */
  const Alphabet: string := ((("FcwAPNKT" + "Mug3GV5L") + ("j7EJnHpW" + "sx4tb8ha")) + (("YeviqBz6" + "rkCy12mU") + ("SDQX9Rdo" + "Zf")))

  /** `REV = {ch: i for i, ch in enumerate(ALPHABET)}` */
  function Rev(): map<char, nat> {
    Enumerate(Alphabet)
  }

  /** The dict comprehension `{ch: i for i, ch in enumerate(s)}`, inserting in order. */
  function Enumerate(s: string): map<char, nat> {
    if s == [] then map[] else Enumerate(s[..|s| - 1])[s[|s| - 1] := |s| - 1]
  }

  /** The reasons `bvs.py` raises `ValueError`. */
  datatype BvError =
    | AidOutOfRange(aid: int)
    | EmptyBv
    | BadLength(length: nat)
    | BadPrefix(prefix: string)
    | BadChar(ch: char)
    | BadBitLength(bits: nat)

  // ---------------------------------------------------------------------------
  // The alphabet and its inverse

  /** The index of `c` in the alphabet, written out case by case on the character code; 58
      when `c` is not in it. Only used to show that the 58 characters are distinct. */
  ghost function Position(c: char): nat {
    var k := c as int;
    if k == 70 then 0
    else if k == 99 then 1
    else if k == 119 then 2
    else if k == 65 then 3
    else if k == 80 then 4
    else if k == 78 then 5
    else if k == 75 then 6
    else if k == 84 then 7
    else if k == 77 then 8
    else if k == 117 then 9
    else if k == 103 then 10
    else if k == 51 then 11
    else if k == 71 then 12
    else if k == 86 then 13
    else if k == 53 then 14
    else if k == 76 then 15
    else if k == 106 then 16
    else if k == 55 then 17
    else if k == 69 then 18
    else if k == 74 then 19
    else if k == 110 then 20
    else if k == 72 then 21
    else if k == 112 then 22
    else if k == 87 then 23
    else if k == 115 then 24
    else if k == 120 then 25
    else if k == 52 then 26
    else if k == 116 then 27
    else if k == 98 then 28
    else if k == 56 then 29
    else if k == 104 then 30
    else if k == 97 then 31
    else if k == 89 then 32
    else if k == 101 then 33
    else if k == 118 then 34
    else if k == 105 then 35
    else if k == 113 then 36
    else if k == 66 then 37
    else if k == 122 then 38
    else if k == 54 then 39
    else if k == 114 then 40
    else if k == 107 then 41
    else if k == 67 then 42
    else if k == 121 then 43
    else if k == 49 then 44
    else if k == 50 then 45
    else if k == 109 then 46
    else if k == 85 then 47
    else if k == 83 then 48
    else if k == 68 then 49
    else if k == 81 then 50
    else if k == 88 then 51
    else if k == 57 then 52
    else if k == 82 then 53
    else if k == 100 then 54
    else if k == 111 then 55
    else if k == 90 then 56
    else if k == 102 then 57
    else 58
  }

  lemma PositionInverts()
    ensures forall i :: 0 <= i < |Alphabet| ==> Position(Alphabet[i]) == i
  {
    PositionInverts0();
    PositionInverts8();
    PositionInverts16();
    PositionInverts24();
    PositionInverts32();
    PositionInverts40();
    PositionInverts48();
    PositionInverts56();
  }

  // One lemma per eight positions keeps each proof small.
  lemma PositionInverts0()
    ensures forall i :: 0 <= i < 8 ==> Position(Alphabet[i]) == i
  {
    forall i | 0 <= i < 8
      ensures Position(Alphabet[i]) == i
    {
      assert i == 0 || i == 1 || i == 2 || i == 3 || i == 4 || i == 5 || i == 6 || i == 7;
    }
  }

  lemma PositionInverts8()
    ensures forall i :: 8 <= i < 16 ==> Position(Alphabet[i]) == i
  {
    forall i | 8 <= i < 16
      ensures Position(Alphabet[i]) == i
    {
      assert i == 8 || i == 9 || i == 10 || i == 11 || i == 12 || i == 13 || i == 14 || i == 15;
    }
  }

  lemma PositionInverts16()
    ensures forall i :: 16 <= i < 24 ==> Position(Alphabet[i]) == i
  {
    forall i | 16 <= i < 24
      ensures Position(Alphabet[i]) == i
    {
      assert i == 16 || i == 17 || i == 18 || i == 19 || i == 20 || i == 21 || i == 22 || i == 23;
    }
  }

  lemma PositionInverts24()
    ensures forall i :: 24 <= i < 32 ==> Position(Alphabet[i]) == i
  {
    forall i | 24 <= i < 32
      ensures Position(Alphabet[i]) == i
    {
      assert i == 24 || i == 25 || i == 26 || i == 27 || i == 28 || i == 29 || i == 30 || i == 31;
    }
  }

  lemma PositionInverts32()
    ensures forall i :: 32 <= i < 40 ==> Position(Alphabet[i]) == i
  {
    forall i | 32 <= i < 40
      ensures Position(Alphabet[i]) == i
    {
      assert i == 32 || i == 33 || i == 34 || i == 35 || i == 36 || i == 37 || i == 38 || i == 39;
    }
  }

  lemma PositionInverts40()
    ensures forall i :: 40 <= i < 48 ==> Position(Alphabet[i]) == i
  {
    forall i | 40 <= i < 48
      ensures Position(Alphabet[i]) == i
    {
      assert i == 40 || i == 41 || i == 42 || i == 43 || i == 44 || i == 45 || i == 46 || i == 47;
    }
  }

  lemma PositionInverts48()
    ensures forall i :: 48 <= i < 56 ==> Position(Alphabet[i]) == i
  {
    forall i | 48 <= i < 56
      ensures Position(Alphabet[i]) == i
    {
      assert i == 48 || i == 49 || i == 50 || i == 51 || i == 52 || i == 53 || i == 54 || i == 55;
    }
  }

  lemma PositionInverts56()
    ensures forall i :: 56 <= i < 58 ==> Position(Alphabet[i]) == i
  {
    forall i | 56 <= i < 58
      ensures Position(Alphabet[i]) == i
    {
      assert i == 56 || i == 57;
    }
  }

  /** The alphabet has 58 distinct characters, so `REV` loses none of them. */
  lemma AlphabetDistinct()
    ensures |Alphabet| == Base
    ensures forall i, j :: 0 <= i < j < |Alphabet| ==> Alphabet[i] != Alphabet[j]
  {
    PositionInverts();
  }

  /** The keys of `Enumerate(s)` are the characters of `s`, each mapped to a position that
      holds it. */
  lemma {:induction false} EnumerateKeys(s: string, c: char)
    ensures c in Enumerate(s) <==> c in s
    ensures c in Enumerate(s) ==> Enumerate(s)[c] < |s| && s[Enumerate(s)[c]] == c
  {
    if s != [] {
      var init := s[..|s| - 1];
      EnumerateKeys(init, c);
      assert s == init + [s[|s| - 1]];
    }
  }

  /** Without repeated characters, `Enumerate(s)` maps `s[i]` back to `i`. */
  lemma {:induction false} EnumerateInverts(s: string, i: nat)
    requires forall j, k :: 0 <= j < k < |s| ==> s[j] != s[k]
    requires i < |s|
    ensures s[i] in Enumerate(s) && Enumerate(s)[s[i]] == i
  {
    var init := s[..|s| - 1];
    if i < |s| - 1 {
      EnumerateInverts(init, i);
      assert s[i] == init[i];
    }
  }

  /** `REV[ALPHABET[i]] == i` for every position of the alphabet. */
  lemma RevInverts(i: nat)
    requires i < |Alphabet|
    ensures Alphabet[i] in Rev() && Rev()[Alphabet[i]] == i
  {
    AlphabetDistinct();
    EnumerateInverts(Alphabet, i);
  }

  /** The keys of `REV` are the characters of the alphabet, and `ALPHABET[REV[c]] == c`. */
  lemma RevLookup(c: char)
    ensures c in Rev() <==> c in Alphabet
    ensures c in Rev() ==> Rev()[c] < Base && Alphabet[Rev()[c]] == c
  {
    AlphabetDistinct();
    EnumerateKeys(Alphabet, c);
  }

  // ---------------------------------------------------------------------------
  // The position swap

  /** The position whose character lands at `k` after `swap_bv_chars`: 3 <-> 9, 4 <-> 7. */
  function SwapIndex(k: nat): (r: nat)
    ensures k < 10 ==> r < 10
    ensures k != 3 && k != 4 && k != 7 && k != 9 ==> r == k
    ensures k >= 3 ==> r >= 3
  {
    if k == 3 then 9
    else if k == 9 then 3
    else if k == 4 then 7
    else if k == 7 then 4
    else k
  }

  lemma SwapIndexInvolution(k: nat)
    ensures SwapIndex(SwapIndex(k)) == k
  {
  }

  /** The string `swap_bv_chars` leaves in its list. */
  function Swapped(s: string): (r: string)
    requires |s| >= 10
    ensures |r| == |s|
    ensures forall k :: 0 <= k < |s| ==> r[k] == s[SwapIndex(k)]
  {
    var t := s[3 := s[9]][9 := s[3]];
    t[4 := t[7]][7 := t[4]]
  }

  /** Swapping twice gives the string back. */
  lemma SwappedInvolution(s: string)
    requires |s| >= 10
    ensures Swapped(Swapped(s)) == s
  {
    var r := Swapped(Swapped(s));
    forall k | 0 <= k < |s|
      ensures r[k] == s[k]
    {
      SwapIndexInvolution(k);
      assert r[k] == Swapped(s)[SwapIndex(k)];
    }
  }

  /** Only positions 3, 4, 7 and 9 change. */
  lemma SwappedKeepsOthers(s: string, k: nat)
    requires |s| >= 10 && k < |s|
    requires k != 3 && k != 4 && k != 7 && k != 9
    ensures Swapped(s)[k] == s[k]
  {
  }

  /** `swap_bv_chars(bv)`: swaps the characters in place. */
  method SwapBvChars(bv: array<char>)
    requires bv.Length >= 10
    modifies bv
    ensures bv[..] == Swapped(old(bv[..]))
  {
    bv[3], bv[9] := bv[9], bv[3];
    bv[4], bv[7] := bv[7], bv[4];
  }

  // ---------------------------------------------------------------------------
  // Base 58

  function Pow58(k: nat): (r: nat)
    ensures r >= 1
  {
    if k == 0 then 1 else Base * Pow58(k - 1)
  }

  predicate IsDigits(ds: seq<nat>) {
    forall i :: 0 <= i < |ds| ==> ds[i] < Base
  }

  /** The `k` lowest base-58 digits of `n`, most significant first, as the while loop of
      `av_to_bv` writes them from the right. */
  function Digits58(n: nat, k: nat): (r: seq<nat>)
    ensures |r| == k && IsDigits(r)
  {
    if k == 0 then [] else Digits58(n / Base, k - 1) + [n % Base]
  }

  /** The number the for loop of `bv_to_av` accumulates: `v = v * BASE + d` for each digit. */
  function Value(ds: seq<nat>): nat {
    if ds == [] then 0 else Value(ds[..|ds| - 1]) * Base + ds[|ds| - 1]
  }

  /** The characters of the digits. */
  function Letters(ds: seq<nat>): (r: string)
    requires IsDigits(ds)
    ensures |r| == |ds|
    ensures forall i :: 0 <= i < |ds| ==> r[i] == Alphabet[ds[i]]
  {
    AlphabetDistinct();
    if ds == [] then [] else [Alphabet[ds[0]]] + Letters(ds[1..])
  }

  /** The digits of the characters, through `REV`. */
  function Positions(s: string): (r: seq<nat>)
    requires forall i :: 0 <= i < |s| ==> s[i] in Rev()
    ensures |r| == |s|
    ensures forall i :: 0 <= i < |s| ==> r[i] == Rev()[s[i]]
  {
    if s == [] then [] else Positions(s[..|s| - 1]) + [Rev()[s[|s| - 1]]]
  }

  /** Each digit read through `REV` points back at its character. */
  lemma PositionsLookup(s: string)
    requires forall i :: 0 <= i < |s| ==> s[i] in Rev()
    ensures IsDigits(Positions(s))
    ensures forall i :: 0 <= i < |s| ==> Alphabet[Positions(s)[i]] == s[i]
  {
    var p := Positions(s);
    forall i | 0 <= i < |s|
      ensures p[i] < Base && Alphabet[p[i]] == s[i]
    {
      RevLookup(s[i]);
    }
  }

  /** Reading back the letters of some digits gives the digits. */
  lemma PositionsOfLetters(ds: seq<nat>)
    requires IsDigits(ds)
    ensures forall i :: 0 <= i < |ds| ==> Letters(ds)[i] in Rev()
    ensures Positions(Letters(ds)) == ds
  {
    LettersReadBack(ds);
    PositionsInverted(Letters(ds), ds);
  }

  lemma PositionsInverted(s: string, ds: seq<nat>)
    requires |s| == |ds|
    requires forall i :: 0 <= i < |s| ==> s[i] in Rev() && Rev()[s[i]] == ds[i]
    ensures Positions(s) == ds
  {
    var p := Positions(s);
    assert forall i :: 0 <= i < |s| ==> p[i] == ds[i];
  }

  lemma LettersReadBack(ds: seq<nat>)
    requires IsDigits(ds)
    ensures forall i :: 0 <= i < |ds| ==> Letters(ds)[i] in Rev() && Rev()[Letters(ds)[i]] == ds[i]
  {
    forall i | 0 <= i < |ds|
      ensures Letters(ds)[i] in Rev() && Rev()[Letters(ds)[i]] == ds[i]
    {
      RevInverts(ds[i]);
    }
  }

  /** Writing the letters of the digits of some characters gives the characters. */
  lemma LettersOfPositions(s: string)
    requires forall i :: 0 <= i < |s| ==> s[i] in Rev()
    ensures IsDigits(Positions(s)) && Letters(Positions(s)) == s
  {
    PositionsLookup(s);
    LettersInverted(Positions(s), s);
  }

  lemma LettersInverted(ds: seq<nat>, s: string)
    requires IsDigits(ds) && |ds| == |s|
    requires forall i :: 0 <= i < |s| ==> Alphabet[ds[i]] == s[i]
    ensures Letters(ds) == s
  {
    var r := Letters(ds);
    assert forall i :: 0 <= i < |s| ==> r[i] == s[i];
  }

  /** `n` divided by 58, `k` times over: the value of `tmp` after `k` turns of the loop of
      `av_to_bv`. */
  ghost function Quot(n: nat, k: nat): nat {
    if k == 0 then n else Quot(n, k - 1) / Base
  }

  lemma {:induction false} QuotShift(n: nat, k: nat)
    ensures Quot(n / Base, k) == Quot(n, k + 1)
  {
    if k > 0 {
      QuotShift(n, k - 1);
    }
  }

  /** `Quot(n, k) == n / 58^k` */
  lemma {:induction false} QuotIsDiv(n: nat, k: nat)
    ensures Quot(n, k) == n / Pow58(k)
  {
    if k > 0 {
      QuotIsDiv(n, k - 1);
      DivDiv(n, k - 1);
    }
  }

  lemma {:induction false} QuotShrinks(n: nat, i: nat, j: nat)
    requires i <= j
    ensures Quot(n, j) <= Quot(n, i)
    decreases j
  {
    if i < j {
      QuotShrinks(n, i, j - 1);
    }
  }

  /** A number of exactly 9 base-58 digits leaves a non-zero `tmp` for 9 turns and a zero
      one after. */
  lemma QuotOfNineDigits(n: nat, k: nat)
    requires Pow58(8) <= n < Pow58(9)
    ensures Quot(n, k) != 0 <==> k <= 8
  {
    Pow58Values();
    QuotIsDiv(n, 8);
    QuotIsDiv(n, 9);
    if k <= 8 {
      QuotShrinks(n, k, 8);
    } else {
      QuotShrinks(n, 9, k);
    }
  }

  /** `Digits58(n, k + 1)` puts the digit the loop writes in its turn `k` in front of
      `Digits58(n, k)`. */
  lemma {:induction false} DigitsPrepend(n: nat, k: nat)
    ensures Digits58(n, k + 1) == [Quot(n, k) % Base] + Digits58(n, k)
  {
    if k > 0 {
      DigitsPrepend(n / Base, k - 1);
      QuotShift(n, k - 1);
    }
  }

  /** `n / 58 / 58^k == n / 58^(k + 1)` */
  lemma DivDiv(n: nat, k: nat)
    ensures n / Base / Pow58(k) == n / Pow58(k + 1)
    ensures n / Pow58(k) / Base == n / Pow58(k + 1)
  {
    ModPeel(n, Base, Pow58(k));
    ModPeel(n, Pow58(k), Base);
  }

  /** The digits of `n` read back as the number give `n` modulo `58^k`. */
  lemma {:induction false} ValueOfDigits(n: nat, k: nat)
    ensures Value(Digits58(n, k)) == n % Pow58(k)
  {
    if k > 0 {
      var ds := Digits58(n, k);
      assert ds[..k - 1] == Digits58(n / Base, k - 1);
      ValueOfDigits(n / Base, k - 1);
      ModPeel(n, Base, Pow58(k - 1));
    }
  }

  /** A number of `k` digits is below `58^k`. */
  lemma {:induction false} ValueBelow(ds: seq<nat>)
    requires IsDigits(ds)
    ensures Value(ds) < Pow58(|ds|)
  {
    if ds != [] {
      var init := ds[..|ds| - 1];
      ValueBelow(init);
      DigitBelow(Value(init), ds[|ds| - 1], Pow58(|init|));
    }
  }

  lemma DigitBelow(v: nat, d: nat, p: nat)
    requires v < p && d < Base
    ensures v * Base + d < Base * p
  {
    assert v * Base <= (p - 1) * Base;
  }

  /** The digits of a number read from digits are those digits. */
  lemma {:induction false} DigitsOfValue(ds: seq<nat>)
    requires IsDigits(ds)
    ensures Digits58(Value(ds), |ds|) == ds
  {
    if ds != [] {
      var init, last := ds[..|ds| - 1], ds[|ds| - 1];
      DivModUnique(Value(ds), Base, Value(init), last);
      DigitsOfValue(init);
    }
  }

  // ---------------------------------------------------------------------------
  // The guards

  /** Python's `str.upper()` on one character, for ASCII letters. */
  function UpperChar(c: char): char {
    if 'a' <= c <= 'z' then (c as int - 32) as char else c
  }

  function Upper(s: string): (r: string)
    ensures |r| == |s| && forall i :: 0 <= i < |s| ==> r[i] == UpperChar(s[i])
  {
    seq(|s|, i requires 0 <= i < |s| => UpperChar(s[i]))
  }

  /** `check_aid_range` */
  function CheckAidRange(aid: int): (r: Outcome<BvError>)
    ensures r.Pass? <==> MinAid <= aid < MaxAid
    ensures r.Fail? ==> r.error == AidOutOfRange(aid)
  {
    if aid < MinAid || aid >= MaxAid then Fail(AidOutOfRange(aid)) else Pass
  }

  /** `check_bv_format`: not empty, 12 characters, and a prefix that upper-cases to "BV1". */
  function CheckBvFormat(bv: string): (r: Outcome<BvError>)
    ensures r.Pass? <==> |bv| == BvLen && Upper(bv[..3]) == Prefix
    ensures bv == [] ==> r == Fail(EmptyBv)
    ensures bv != [] && |bv| != BvLen ==> r == Fail(BadLength(|bv|))
    ensures |bv| == BvLen && Upper(bv[..3]) != Prefix ==> r == Fail(BadPrefix(bv[..3]))
  {
    if bv == [] then Fail(EmptyBv)
    else if |bv| != BvLen then Fail(BadLength(|bv|))
    else if Upper(bv[..3]) != Prefix then Fail(BadPrefix(bv[..3]))
    else Pass
  }

  /** `bv[i]` is the first character of `bv` that is not a key of `REV`. */
  predicate FirstBadChar(bv: string, i: nat)
    requires i < |bv|
  {
    bv[i] !in Rev() && forall j :: 0 <= j < i ==> bv[j] in Rev()
  }

  /** `check_bv_chars`: fails on the first character that is not a key of `REV`. */
  function CheckBvChars(bv: string): (r: Outcome<BvError>)
    ensures r.Pass? <==> forall i :: 0 <= i < |bv| ==> bv[i] in Rev()
    ensures r.Fail? ==> exists i :: 0 <= i < |bv| && FirstBadChar(bv, i) && r.error == BadChar(bv[i])
  {
    if bv == [] then Pass
    else if bv[0] !in Rev() then
      assert FirstBadChar(bv, 0);
      Fail(BadChar(bv[0]))
    else
      var r := CheckBvChars(bv[1..]);
      assert forall i :: 1 <= i < |bv| ==> bv[i] == bv[1..][i - 1];
      if r.Fail? then
        ghost var i :| 0 <= i < |bv| - 1 && FirstBadChar(bv[1..], i) && r.error == BadChar(bv[1..][i]);
        assert FirstBadChar(bv, i + 1);
        r
      else
        r
  }

  /** `check_bv_int_len`: the decoded number has exactly 52 bits. */
  function CheckBvIntLen(n: nat): (r: Outcome<BvError>)
    ensures r.Pass? <==> Pow2(51) <= n < Pow2(52)
    ensures r.Fail? ==> r.error == BadBitLength(BitLength(n))
  {
    BitLengthRange(n, 52);
    if BitLength(n) != 52 then Fail(BadBitLength(BitLength(n))) else Pass
  }

  // ---------------------------------------------------------------------------
  // Encoding and decoding, as functions

  /** `(MAX_AID | aid) ^ XOR_CODE`, the number `av_to_bv` writes in base 58. */
  function Tmp(aid: nat): nat {
    Xor(Or(MaxAid, aid), XorCode)
  }

  /** `av_to_bv`: the prefix, then the 9 base-58 digits of `Tmp(aid)`, then the swap. */
  function Encode(aid: int): (r: Result<string, BvError>)
    ensures r.Ok? <==> MinAid <= aid < MaxAid
    ensures r.Err? ==> r.error == AidOutOfRange(aid)
  {
    match CheckAidRange(aid)
    case Fail(e) => Err(e)
    case Pass => Ok(Swapped(Prefix + Letters(Digits58(Tmp(aid), BvLen - |Prefix|))))
  }

  /** The number the for loop of `bv_to_av` reads from the swapped characters 3 to 11. */
  function BvNumber(bv: string): nat
    requires |bv| == BvLen && forall i :: 0 <= i < |bv| ==> bv[i] in Rev()
  {
    var s := Swapped(bv);
    assert forall i :: 0 <= i < |s| ==> s[i] == bv[SwapIndex(i)];
    Value(Positions(s[3..]))
  }

  /** `(bv_int & MASK_CODE) ^ XOR_CODE` */
  function Unmask(n: nat): nat {
    Xor(And(n, MaskCode), XorCode)
  }

  /** `bv_to_av`: the format and character guards, the number, its width, the unmasking and
      the range guard, failing at the first guard that fails. */
  function Decode(bv: string): (r: Result<int, BvError>)
    ensures r.Ok? ==> MinAid <= r.value < MaxAid
  {
    match CheckBvFormat(bv)
    case Fail(e) => Err(e)
    case Pass =>
      match CheckBvChars(bv)
      case Fail(e) => Err(e)
      case Pass =>
        var n := BvNumber(bv);
        match CheckBvIntLen(n)
        case Fail(e) => Err(e)
        case Pass =>
          var aid := Unmask(n);
          match CheckAidRange(aid)
          case Fail(e) => Err(e)
          case Pass => Ok(aid)
  }

  // ---------------------------------------------------------------------------
  // Facts about the constants and `Tmp`

  lemma Pow2Values()
    ensures Pow2(51) == 2251799813685248 && Pow2(52) == 4503599627370496
  {
    assert Pow2(1) == 2;
    assert Pow2(2) == 4;
    assert Pow2(3) == 8;
    assert Pow2(4) == 16;
    assert Pow2(5) == 32;
    assert Pow2(6) == 64;
    assert Pow2(7) == 128;
    assert Pow2(8) == 256;
    assert Pow2(9) == 512;
    assert Pow2(10) == 1024;
    assert Pow2(11) == 2048;
    assert Pow2(12) == 4096;
    assert Pow2(13) == 8192;
    assert Pow2(14) == 16384;
    assert Pow2(15) == 32768;
    assert Pow2(16) == 65536;
    assert Pow2(17) == 131072;
    assert Pow2(18) == 262144;
    assert Pow2(19) == 524288;
    assert Pow2(20) == 1048576;
    assert Pow2(21) == 2097152;
    assert Pow2(22) == 4194304;
    assert Pow2(23) == 8388608;
    assert Pow2(24) == 16777216;
    assert Pow2(25) == 33554432;
    assert Pow2(26) == 67108864;
    assert Pow2(27) == 134217728;
    assert Pow2(28) == 268435456;
    assert Pow2(29) == 536870912;
    assert Pow2(30) == 1073741824;
    assert Pow2(31) == 2147483648;
    assert Pow2(32) == 4294967296;
    assert Pow2(33) == 8589934592;
    assert Pow2(34) == 17179869184;
    assert Pow2(35) == 34359738368;
    assert Pow2(36) == 68719476736;
    assert Pow2(37) == 137438953472;
    assert Pow2(38) == 274877906944;
    assert Pow2(39) == 549755813888;
    assert Pow2(40) == 1099511627776;
    assert Pow2(41) == 2199023255552;
    assert Pow2(42) == 4398046511104;
    assert Pow2(43) == 8796093022208;
    assert Pow2(44) == 17592186044416;
    assert Pow2(45) == 35184372088832;
    assert Pow2(46) == 70368744177664;
    assert Pow2(47) == 140737488355328;
    assert Pow2(48) == 281474976710656;
    assert Pow2(49) == 562949953421312;
    assert Pow2(50) == 1125899906842624;
    assert Pow2(51) == 2251799813685248;
    assert Pow2(52) == 4503599627370496;
  }

  lemma Pow58Values()
    ensures Pow58(8) == 128063081718016 && Pow58(9) == 7427658739644928
  {
    assert Pow58(1) == 58;
    assert Pow58(2) == 3364;
    assert Pow58(3) == 195112;
    assert Pow58(4) == 11316496;
    assert Pow58(5) == 656356768;
    assert Pow58(6) == 38068692544;
    assert Pow58(7) == 2207984167552;
    assert Pow58(8) == 128063081718016;
    assert Pow58(9) == 7427658739644928;
  }

  /** `MAX_AID == 2^51` and `MASK_CODE == 2^51 - 1`, and `XOR_CODE` fits below them. */
  lemma ConstantsAgree()
    ensures MaxAid == Pow2(51) == MaskCode + 1
    ensures XorCode < Pow2(51)
  {
    Pow2Values();
  }

  /** For `aid` below `2^51`, `Tmp(aid)` is `2^51 + (aid ^ XOR_CODE)`: exactly 52 bits,
      so exactly 9 base-58 digits, which fill the buffer from index 11 down to index 3. */
  lemma TmpRange(aid: nat)
    requires aid < MaxAid
    ensures Tmp(aid) == MaxAid + Xor(aid, XorCode)
    ensures Pow2(51) <= Tmp(aid) < Pow2(52) && BitLength(Tmp(aid)) == 52
    ensures Pow58(8) <= Tmp(aid) < Pow58(9)
  {
    ConstantsAgree();
    OrHighBit(aid, 51);
    XorHighBit(aid, XorCode, 51);
    XorBelow(aid, XorCode, 51);
    BitLengthRange(Tmp(aid), 52);
    Pow2Values();
    Pow58Values();
  }

  /** Unmasking a 52-bit number `n` gives `(n - 2^51) ^ XOR_CODE`, and `Unmask` undoes `Tmp`. */
  lemma UnmaskHigh(n: nat)
    requires Pow2(51) <= n < Pow2(52)
    ensures n == Pow2(51) + n % Pow2(51)
    ensures Unmask(n) == Xor(n % Pow2(51), XorCode)
  {
    ConstantsAgree();
    AndLowMask(n, 51);
    assert Pow2(52) == 2 * Pow2(51);
    DivModUnique(n, Pow2(51), 1, n - Pow2(51));
  }

  lemma UnmaskTmp(aid: nat)
    requires aid < MaxAid
    ensures Unmask(Tmp(aid)) == aid
  {
    TmpRange(aid);
    var x := Xor(aid, XorCode);
    XorBelow(aid, XorCode, 51);
    ConstantsAgree();
    UnmaskHigh(Tmp(aid));
    DivModUnique(Tmp(aid), Pow2(51), 1, x);
    XorInvolution(aid, XorCode);
  }

  lemma TmpUnmask(n: nat)
    requires Pow2(51) <= n < Pow2(52)
    ensures Unmask(n) < MaxAid && Tmp(Unmask(n)) == n
  {
    UnmaskHigh(n);
    ConstantsAgree();
    var m := n % Pow2(51);
    XorBelow(m, XorCode, 51);
    TmpRange(Unmask(n));
    XorInvolution(m, XorCode);
  }

  // ---------------------------------------------------------------------------
  // Round trip

  /** "BV1", in upper or lower case, is spelled with characters of the alphabet. */
  lemma PrefixInAlphabet(p: string)
    requires |p| == 3 && Upper(p) == Prefix
    ensures forall i :: 0 <= i < 3 ==> p[i] in Rev()
    ensures p[2] == '1' && (p[0] == 'B' || p[0] == 'b') && (p[1] == 'V' || p[1] == 'v')
  {
    assert UpperChar(p[0]) == 'B' && UpperChar(p[1]) == 'V' && UpperChar(p[2]) == '1';
    RevInverts(37);
    RevInverts(28);
    RevInverts(13);
    RevInverts(34);
    RevInverts(44);
  }

  /** The characters of an encoding all pass `check_bv_chars`, and it passes
      `check_bv_format`. */
  lemma EncodedPassesGuards(aid: nat)
    requires MinAid <= aid < MaxAid
    ensures var u := Prefix + Letters(Digits58(Tmp(aid), 9));
      |u| == BvLen && Encode(aid) == Ok(Swapped(u))
      && CheckBvFormat(Swapped(u)).Pass? && CheckBvChars(Swapped(u)).Pass?
  {
    var ds := Digits58(Tmp(aid), 9);
    var u := Prefix + Letters(ds);
    var s := Swapped(u);
    assert s[..3] == Prefix;
    assert Upper(Prefix) == Prefix;
    PrefixInAlphabet(Prefix);
    LettersReadBack(ds);
    assert forall i :: 0 <= i < |u| ==> u[i] in Rev();
    assert forall i :: 0 <= i < |s| ==> s[i] == u[SwapIndex(i)];
  }

  /** Reading a swapped string undoes the swap. */
  lemma NumberOfSwapped(u: string)
    requires |u| == BvLen && forall i :: 0 <= i < |u| ==> u[i] in Rev()
    ensures forall i :: 0 <= i < |u| ==> Swapped(u)[i] in Rev()
    ensures BvNumber(Swapped(u)) == Value(Positions(u[3..]))
  {
    var s := Swapped(u);
    assert forall i :: 0 <= i < |s| ==> s[i] == u[SwapIndex(i)];
    SwappedInvolution(u);
  }

  /** The swapped-back digits of an encoding read back as `Tmp(aid)`. */
  lemma EncodedNumber(aid: nat)
    requires MinAid <= aid < MaxAid
    ensures var u := Prefix + Letters(Digits58(Tmp(aid), 9));
      |u| == BvLen && (forall i :: 0 <= i < |u| ==> Swapped(u)[i] in Rev())
      && BvNumber(Swapped(u)) == Tmp(aid)
  {
    var ds := Digits58(Tmp(aid), 9);
    var u := Prefix + Letters(ds);
    PrefixInAlphabet(Prefix);
    LettersReadBack(ds);
    assert forall i :: 0 <= i < |u| ==> u[i] in Rev();
    NumberOfSwapped(u);
    assert u[3..] == Letters(ds);
    PositionsOfLetters(ds);
    assert Value(ds) == Tmp(aid) by {
      ValueOfDigits(Tmp(aid), 9);
      TmpRange(aid);
      DivModUnique(Tmp(aid), Pow58(9), 0, Tmp(aid));
    }
  }

  /** `bv_to_av(av_to_bv(aid)) == aid` for every aid in range. */
  lemma RoundTrip(aid: int)
    requires MinAid <= aid < MaxAid
    ensures Encode(aid).Ok? && Decode(Encode(aid).value) == Ok(aid)
  {
    EncodedPassesGuards(aid);
    EncodedNumber(aid);
    TmpRange(aid);
    UnmaskTmp(aid);
  }

  /** The position swap only moves characters inside positions 3 to 11, so swapping a
      string whose tail is that of a swapped string gives back the original tail. */
  lemma SwapTail(bv: string, p: string)
    requires |bv| == BvLen && |p| == 3
    ensures Swapped(p + Swapped(bv)[3..]) == p + bv[3..]
  {
    var s := Swapped(bv);
    var u := p + s[3..];
    var r := Swapped(u);
    forall k | 0 <= k < BvLen
      ensures r[k] == (p + bv[3..])[k]
    {
      SwapIndexInvolution(k);
      if k >= 3 {
        assert r[k] == s[SwapIndex(k)];
      }
    }
  }

  /** Every string `bv_to_av` accepts is, up to the case of its prefix, what `av_to_bv` gives
      for the decoded aid: no two accepted strings with the same tail decode differently, and
      none decodes to an aid whose encoding differs from it. */
  lemma DecodeCanonical(bv: string)
    requires Decode(bv).Ok?
    ensures Encode(Decode(bv).value) == Ok(Prefix + bv[3..])
  {
    var s := Swapped(bv);
    assert forall i :: 0 <= i < |s| ==> s[i] == bv[SwapIndex(i)];
    var tail := s[3..];
    var ds := Positions(tail);
    var n := Value(ds);
    var aid := Unmask(n);
    PositionsLookup(tail);
    TmpUnmask(n);
    DigitsOfValue(ds);
    LettersOfPositions(tail);
    SwapTail(bv, Prefix);
  }

  // ---------------------------------------------------------------------------
  // Rejections

  /** `bv_to_av` raises for an empty string, a wrong length or a prefix that does not
      upper-case to "BV1", before it looks at the characters. */
  lemma DecodeRejectsFormat(bv: string)
    ensures bv == [] ==> Decode(bv) == Err(EmptyBv)
    ensures bv != [] && |bv| != BvLen ==> Decode(bv) == Err(BadLength(|bv|))
    ensures |bv| == BvLen && Upper(bv[..3]) != Prefix ==> Decode(bv) == Err(BadPrefix(bv[..3]))
  {
  }

  /** A well-formed string with a character outside the alphabet is refused, naming a
      character outside the alphabet. */
  lemma DecodeRejectsChar(bv: string, i: nat)
    requires CheckBvFormat(bv).Pass?
    requires i < |bv| && bv[i] !in Alphabet
    ensures Decode(bv).Err? && Decode(bv).error.BadChar? && Decode(bv).error.ch !in Alphabet
  {
    RevLookup(bv[i]);
    var c := CheckBvChars(bv);
    var j :| 0 <= j < |bv| && FirstBadChar(bv, j) && c.error == BadChar(bv[j]);
    RevLookup(bv[j]);
  }

  /** A string whose characters pass but whose number is not 52 bits wide is refused with
      its bit length. */
  lemma DecodeRejectsWidth(bv: string)
    requires CheckBvFormat(bv).Pass? && CheckBvChars(bv).Pass?
    requires !(Pow2(51) <= BvNumber(bv) < Pow2(52))
    ensures Decode(bv) == Err(BadBitLength(BitLength(BvNumber(bv))))
  {
  }

  /** A 52-bit number decodes to aid 0, and is refused, exactly when its 51 low bits are
      `XOR_CODE`; every other one is accepted. */
  lemma DecodeRejectsZero(bv: string)
    requires CheckBvFormat(bv).Pass? && CheckBvChars(bv).Pass?
    requires Pow2(51) <= BvNumber(bv) < Pow2(52)
    ensures Decode(bv).Err? <==> BvNumber(bv) % Pow2(51) == XorCode
    ensures Decode(bv).Err? ==> Decode(bv) == Err(AidOutOfRange(0))
  {
    var n := BvNumber(bv);
    UnmaskHigh(n);
    XorZeroIff(n % Pow2(51), XorCode);
    TmpUnmask(n);
  }

  /** The case of the prefix does not matter: two 12-character strings whose prefixes
      upper-case to "BV1" and whose other nine characters agree decode alike. */
  lemma DecodeIgnoresPrefixCase(left: string, right: string)
    requires |left| == BvLen
    requires |right| == BvLen
    requires Upper(left[..3]) == Prefix && Upper(right[..3]) == Prefix
    requires left[3..] == right[3..]
    ensures Decode(left) == Decode(right)
  {
    PrefixInAlphabet(left[..3]);
    PrefixInAlphabet(right[..3]);
    assert forall i :: 3 <= i < BvLen ==> left[i] == right[i] by {
      forall i | 3 <= i < BvLen
        ensures left[i] == right[i]
      {
        assert left[i] == left[3..][i - 3];
      }
    }
    assert forall i :: 0 <= i < 3 ==> left[i] in Rev() && right[i] in Rev() by {
      assert forall i :: 0 <= i < 3 ==> left[i] == left[..3][i] && right[i] == right[..3][i];
    }
    var c1, c2 := CheckBvChars(left), CheckBvChars(right);
    if c1.Fail? || c2.Fail? {
      FirstBadCharsAgree(left, right);
    } else {
      var s1, s2 := Swapped(left), Swapped(right);
      assert s1[3..] == s2[3..] by {
        forall i | 3 <= i < BvLen
          ensures s1[i] == s2[i]
        {
          assert s1[i] == left[SwapIndex(i)] && s2[i] == right[SwapIndex(i)];
        }
      }
    }
  }

  /** Two strings that agree from position 3 on and whose first three characters are keys
      of `REV` fail `check_bv_chars` alike. */
  lemma FirstBadCharsAgree(left: string, right: string)
    requires |left| == BvLen
    requires |right| == BvLen
    requires forall i :: 3 <= i < BvLen ==> left[i] == right[i]
    requires forall i :: 0 <= i < 3 ==> left[i] in Rev() && right[i] in Rev()
    ensures CheckBvChars(left) == CheckBvChars(right)
  {
    var c1, c2 := CheckBvChars(left), CheckBvChars(right);
    if c1.Fail? {
      var i :| 0 <= i < BvLen && FirstBadChar(left, i) && c1.error == BadChar(left[i]);
      assert FirstBadChar(right, i);
      var j :| 0 <= j < BvLen && FirstBadChar(right, j) && c2.error == BadChar(right[j]);
      FirstBadCharUnique(right, i, j);
    } else {
      forall i | 0 <= i < BvLen
        ensures right[i] in Rev()
      {
        if i >= 3 {
          assert left[i] in Rev();
        }
      }
    }
  }

  /** Only one character can be the first one outside the alphabet. */
  lemma FirstBadCharUnique(bv: string, i: nat, j: nat)
    requires i < |bv| && j < |bv|
    requires FirstBadChar(bv, i) && FirstBadChar(bv, j)
    ensures i == j
  {
  }

  // ---------------------------------------------------------------------------
  // The two conversions, as the source writes them

  /** `av_to_bv(aid)`: fills a copy of "BV1000000000" from the right with the base-58
      digits of `tmp`, then swaps. */
  method AvToBv(aid: int) returns (r: Result<string, BvError>)
    ensures r == Encode(aid)
  {
    var check := CheckAidRange(aid);
    if check.Fail? {
      return Err(check.error);
    }
    var bv := new char[BvLen](i requires 0 <= i < BvLen => Blank[i]);
    var bvIdx := BvLen - 1;
    var tmp := Xor(Or(MaxAid, aid), XorCode);
    ghost var t := tmp;
    TmpRange(aid);
    BlankParts();
    assert bv[..] == Blank[..bvIdx + 1] + Letters(Digits58(t, 0));
    while tmp != 0
      invariant 2 <= bvIdx <= 11
      invariant tmp == Quot(t, 11 - bvIdx)
      invariant bv[..] == Blank[..bvIdx + 1] + Letters(Digits58(t, 11 - bvIdx))
      decreases tmp
    {
      QuotOfNineDigits(t, 11 - bvIdx);
      WriteStep(t, bvIdx);
      var tableIdx := tmp % Base;
      bv[bvIdx] := Alphabet[tableIdx];
      tmp := tmp / Base;
      bvIdx := bvIdx - 1;
    }
    QuotOfNineDigits(t, 11 - bvIdx);
    assert bvIdx == 2;
    SwapBvChars(bv);
    EncodeInRange(aid);
    return Ok(bv[..]);
  }

  lemma EncodeInRange(aid: int)
    requires MinAid <= aid < MaxAid
    ensures Encode(aid) == Ok(Swapped(Prefix + Letters(Digits58(Tmp(aid), 9))))
  {
  }

  lemma BlankParts()
    ensures |Blank| == BvLen && Blank[..BvLen] == Blank && Blank[..3] == Prefix
    ensures |Alphabet| == Base
  {
  }

  /** One turn of the loop of `av_to_bv`, on the contents of the buffer: writing the letter
      of the digit `tmp % BASE` at `bv_idx`. */
  lemma WriteStep(t: nat, bvIdx: nat)
    requires 3 <= bvIdx <= 11
    ensures |Blank[..bvIdx + 1] + Letters(Digits58(t, 11 - bvIdx))| == BvLen
    ensures (Blank[..bvIdx + 1] + Letters(Digits58(t, 11 - bvIdx)))[bvIdx := Alphabet[Quot(t, 11 - bvIdx) % Base]]
      == Blank[..bvIdx] + Letters(Digits58(t, 11 - (bvIdx - 1)))
  {
    var j := 11 - bvIdx;
    var c := Alphabet[Quot(t, j) % Base];
    var pre := Blank[..bvIdx + 1];
    var tail := Letters(Digits58(t, j));
    WriteDigit(t, j);
    WriteFront(pre, tail, c);
    assert pre[..bvIdx] == Blank[..bvIdx];
    assert 11 - (bvIdx - 1) == j + 1;
  }

  /** Overwriting the last character of `pre` in `pre + tail` with `c`. */
  lemma WriteFront(pre: string, tail: string, c: char)
    requires |pre| >= 1
    ensures (pre + tail)[|pre| - 1 := c] == pre[..|pre| - 1] + ([c] + tail)
  {
  }

  /** One turn of the loop of `av_to_bv`: the letter of the next digit goes in front. */
  lemma WriteDigit(t: nat, k: nat)
    ensures Letters(Digits58(t, k + 1)) == [Alphabet[Quot(t, k) % Base]] + Letters(Digits58(t, k))
  {
    DigitsPrepend(t, k);
    LettersCons(Quot(t, k) % Base, Digits58(t, k));
  }

  lemma LettersCons(d: nat, ds: seq<nat>)
    requires d < Base && IsDigits(ds)
    ensures IsDigits([d] + ds) && Letters([d] + ds) == [Alphabet[d]] + Letters(ds)
  {
    assert ([d] + ds)[1..] == ds;
  }

  /** `bv_to_av(bv)`: the guards, then the swap on a copy, then the number, read digit by
      digit from position 3 on. */
  method BvToAv(bv: string) returns (r: Result<int, BvError>)
    ensures r == Decode(bv)
  {
    var format := CheckBvFormat(bv);
    if format.Fail? {
      return Err(format.error);
    }
    var chars := CheckBvChars(bv);
    if chars.Fail? {
      return Err(chars.error);
    }
    var buf := new char[|bv|](i requires 0 <= i < |bv| => bv[i]);
    assert buf[..] == bv;
    SwapBvChars(buf);
    ghost var s := buf[..];
    SwappedInRev(bv);
    var bvInt: nat := 0;
    for i := 3 to buf.Length
      invariant buf[..] == s
      invariant bvInt == Value(Positions(s[3..i]))
    {
      AppendDigit(s, i);
      bvInt := bvInt * Base + Rev()[buf[i]];
    }
    assert s[3..buf.Length] == s[3..];
    assert bvInt == BvNumber(bv);
    var lenCheck := CheckBvIntLen(bvInt);
    if lenCheck.Fail? {
      return Err(lenCheck.error);
    }
    var aid := Xor(And(bvInt, MaskCode), XorCode);
    var range := CheckAidRange(aid);
    if range.Fail? {
      return Err(range.error);
    }
    return Ok(aid);
  }

  lemma SwappedInRev(bv: string)
    requires |bv| >= 10 && forall i :: 0 <= i < |bv| ==> bv[i] in Rev()
    ensures forall i :: 0 <= i < |bv| ==> Swapped(bv)[i] in Rev()
  {
    forall i | 0 <= i < |bv|
      ensures Swapped(bv)[i] in Rev()
    {
      assert Swapped(bv)[i] == bv[SwapIndex(i)];
    }
  }

  /** One turn of the loop of `bv_to_av`: `bv_int * BASE + REV[ch]`. */
  lemma AppendDigit(s: string, i: nat)
    requires forall k :: 0 <= k < |s| ==> s[k] in Rev()
    requires 3 <= i < |s|
    ensures Value(Positions(s[3..i + 1])) == Value(Positions(s[3..i])) * Base + Rev()[s[i]]
  {
    var u := s[3..i + 1];
    assert u[..|u| - 1] == s[3..i] && u[|u| - 1] == s[i];
    ValueAppend(Positions(s[3..i]), Rev()[s[i]]);
  }

  lemma ValueAppend(ds: seq<nat>, d: nat)
    ensures Value(ds + [d]) == Value(ds) * Base + d
  {
    assert (ds + [d])[..|ds|] == ds;
  }
}
