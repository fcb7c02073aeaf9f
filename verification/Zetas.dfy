/**
 The table of twiddle factors of field.go and what its entries are: powers of
 zeta = 1753, a 512th root of unity, in bit-reversed order (section 7.5 of
 FIPS 204). Everything the transforms need is derived from that.
 */
module Zetas {
  import opened Field
  import opened FieldRing

  /** zetas[k], the 256 table entries, in Montgomery form. */
  function Zeta(k: nat): (r: FieldElement)
    requires k < 256
  {
    if k < 128 then
      if k < 64 then
        if k < 32 then
          if k < 16 then
            if k < 8 then
              if k < 4 then
                if k < 2 then (if k < 1 then 4193792 else 25847) else (if k < 3 then 5771523 else 7861508)
              else
                if k < 6 then (if k < 5 then 237124 else 7602457) else (if k < 7 then 7504169 else 466468)
            else
              if k < 12 then
                if k < 10 then (if k < 9 then 1826347 else 2353451) else (if k < 11 then 8021166 else 6288512)
              else
                if k < 14 then (if k < 13 then 3119733 else 5495562) else (if k < 15 then 3111497 else 2680103)
          else
            if k < 24 then
              if k < 20 then
                if k < 18 then (if k < 17 then 2725464 else 1024112) else (if k < 19 then 7300517 else 3585928)
              else
                if k < 22 then (if k < 21 then 7830929 else 7260833) else (if k < 23 then 2619752 else 6271868)
            else
              if k < 28 then
                if k < 26 then (if k < 25 then 6262231 else 4520680) else (if k < 27 then 6980856 else 5102745)
              else
                if k < 30 then (if k < 29 then 1757237 else 8360995) else (if k < 31 then 4010497 else 280005)
        else
          if k < 48 then
            if k < 40 then
              if k < 36 then
                if k < 34 then (if k < 33 then 2706023 else 95776) else (if k < 35 then 3077325 else 3530437)
              else
                if k < 38 then (if k < 37 then 6718724 else 4788269) else (if k < 39 then 5842901 else 3915439)
            else
              if k < 44 then
                if k < 42 then (if k < 41 then 4519302 else 5336701) else (if k < 43 then 3574422 else 5512770)
              else
                if k < 46 then (if k < 45 then 3539968 else 8079950) else (if k < 47 then 2348700 else 7841118)
          else
            if k < 56 then
              if k < 52 then
                if k < 50 then (if k < 49 then 6681150 else 6736599) else (if k < 51 then 3505694 else 4558682)
              else
                if k < 54 then (if k < 53 then 3507263 else 6239768) else (if k < 55 then 6779997 else 3699596)
            else
              if k < 60 then
                if k < 58 then (if k < 57 then 811944 else 531354) else (if k < 59 then 954230 else 3881043)
              else
                if k < 62 then (if k < 61 then 3900724 else 5823537) else (if k < 63 then 2071892 else 5582638)
      else
        if k < 96 then
          if k < 80 then
            if k < 72 then
              if k < 68 then
                if k < 66 then (if k < 65 then 4450022 else 6851714) else (if k < 67 then 4702672 else 5339162)
              else
                if k < 70 then (if k < 69 then 6927966 else 3475950) else (if k < 71 then 2176455 else 6795196)
            else
              if k < 76 then
                if k < 74 then (if k < 73 then 7122806 else 1939314) else (if k < 75 then 4296819 else 7380215)
              else
                if k < 78 then (if k < 77 then 5190273 else 5223087) else (if k < 79 then 4747489 else 126922)
          else
            if k < 88 then
              if k < 84 then
                if k < 82 then (if k < 81 then 3412210 else 7396998) else (if k < 83 then 2147896 else 2715295)
              else
                if k < 86 then (if k < 85 then 5412772 else 4686924) else (if k < 87 then 7969390 else 5903370)
            else
              if k < 92 then
                if k < 90 then (if k < 89 then 7709315 else 7151892) else (if k < 91 then 8357436 else 7072248)
              else
                if k < 94 then (if k < 93 then 7998430 else 1349076) else (if k < 95 then 1852771 else 6949987)
        else
          if k < 112 then
            if k < 104 then
              if k < 100 then
                if k < 98 then (if k < 97 then 5037034 else 264944) else (if k < 99 then 508951 else 3097992)
              else
                if k < 102 then (if k < 101 then 44288 else 7280319) else (if k < 103 then 904516 else 3958618)
            else
              if k < 108 then
                if k < 106 then (if k < 105 then 4656075 else 8371839) else (if k < 107 then 1653064 else 5130689)
              else
                if k < 110 then (if k < 109 then 2389356 else 8169440) else (if k < 111 then 759969 else 7063561)
          else
            if k < 120 then
              if k < 116 then
                if k < 114 then (if k < 113 then 189548 else 4827145) else (if k < 115 then 3159746 else 6529015)
              else
                if k < 118 then (if k < 117 then 5971092 else 8202977) else (if k < 119 then 1315589 else 1341330)
            else
              if k < 124 then
                if k < 122 then (if k < 121 then 1285669 else 6795489) else (if k < 123 then 7567685 else 6940675)
              else
                if k < 126 then (if k < 125 then 5361315 else 4499357) else (if k < 127 then 4751448 else 3839961)
    else
      if k < 192 then
        if k < 160 then
          if k < 144 then
            if k < 136 then
              if k < 132 then
                if k < 130 then (if k < 129 then 2091667 else 3407706) else (if k < 131 then 2316500 else 3817976)
              else
                if k < 134 then (if k < 133 then 5037939 else 2244091) else (if k < 135 then 5933984 else 4817955)
            else
              if k < 140 then
                if k < 138 then (if k < 137 then 266997 else 2434439) else (if k < 139 then 7144689 else 3513181)
              else
                if k < 142 then (if k < 141 then 4860065 else 4621053) else (if k < 143 then 7183191 else 5187039)
          else
            if k < 152 then
              if k < 148 then
                if k < 146 then (if k < 145 then 900702 else 1859098) else (if k < 147 then 909542 else 819034)
              else
                if k < 150 then (if k < 149 then 495491 else 6767243) else (if k < 151 then 8337157 else 7857917)
            else
              if k < 156 then
                if k < 154 then (if k < 153 then 7725090 else 5257975) else (if k < 155 then 2031748 else 3207046)
              else
                if k < 158 then (if k < 157 then 4823422 else 7855319) else (if k < 159 then 7611795 else 4784579)
        else
          if k < 176 then
            if k < 168 then
              if k < 164 then
                if k < 162 then (if k < 161 then 342297 else 286988) else (if k < 163 then 5942594 else 4108315)
              else
                if k < 166 then (if k < 165 then 3437287 else 5038140) else (if k < 167 then 1735879 else 203044)
            else
              if k < 172 then
                if k < 170 then (if k < 169 then 2842341 else 2691481) else (if k < 171 then 5790267 else 1265009)
              else
                if k < 174 then (if k < 173 then 4055324 else 1247620) else (if k < 175 then 2486353 else 1595974)
          else
            if k < 184 then
              if k < 180 then
                if k < 178 then (if k < 177 then 4613401 else 1250494) else (if k < 179 then 2635921 else 4832145)
              else
                if k < 182 then (if k < 181 then 5386378 else 1869119) else (if k < 183 then 1903435 else 7329447)
            else
              if k < 188 then
                if k < 186 then (if k < 185 then 7047359 else 1237275) else (if k < 187 then 5062207 else 6950192)
              else
                if k < 190 then (if k < 189 then 7929317 else 1312455) else (if k < 191 then 3306115 else 6417775)
      else
        if k < 224 then
          if k < 208 then
            if k < 200 then
              if k < 196 then
                if k < 194 then (if k < 193 then 7100756 else 1917081) else (if k < 195 then 5834105 else 7005614)
              else
                if k < 198 then (if k < 197 then 1500165 else 777191) else (if k < 199 then 2235880 else 3406031)
            else
              if k < 204 then
                if k < 202 then (if k < 201 then 7838005 else 5548557) else (if k < 203 then 6709241 else 6533464)
              else
                if k < 206 then (if k < 205 then 5796124 else 4656147) else (if k < 207 then 594136 else 4603424)
          else
            if k < 216 then
              if k < 212 then
                if k < 210 then (if k < 209 then 6366809 else 2432395) else (if k < 211 then 2454455 else 8215696)
              else
                if k < 214 then (if k < 213 then 1957272 else 3369112) else (if k < 215 then 185531 else 7173032)
            else
              if k < 220 then
                if k < 218 then (if k < 217 then 5196991 else 162844) else (if k < 219 then 1616392 else 3014001)
              else
                if k < 222 then (if k < 221 then 810149 else 1652634) else (if k < 223 then 4686184 else 6581310)
        else
          if k < 240 then
            if k < 232 then
              if k < 228 then
                if k < 226 then (if k < 225 then 5341501 else 3523897) else (if k < 227 then 3866901 else 269760)
              else
                if k < 230 then (if k < 229 then 2213111 else 7404533) else (if k < 231 then 1717735 else 472078)
            else
              if k < 236 then
                if k < 234 then (if k < 233 then 7953734 else 1723600) else (if k < 235 then 6577327 else 1910376)
              else
                if k < 238 then (if k < 237 then 6712985 else 7276084) else (if k < 239 then 8119771 else 4546524)
          else
            if k < 248 then
              if k < 244 then
                if k < 242 then (if k < 241 then 5441381 else 6144432) else (if k < 243 then 7959518 else 6094090)
              else
                if k < 246 then (if k < 245 then 183443 else 7403526) else (if k < 247 then 1612842 else 4834730)
            else
              if k < 252 then
                if k < 250 then (if k < 249 then 7826001 else 3919660) else (if k < 251 then 8332111 else 7018208)
              else
                if k < 254 then (if k < 253 then 3937738 else 1400424) else (if k < 255 then 7534263 else 1976782)
  }

  /** 1753 in Montgomery form. */
  const ZETA: FieldElement := 2091667

  //////////////////////////////////////////////////////////////////////////////
  // Powers
  //////////////////////////////////////////////////////////////////////////////

  function Pow(x: FieldElement, e: nat): (r: FieldElement)
  {
    if e == 0 then ONE else Mul(x, Pow(x, e - 1))
  }

  lemma {:induction false} PowAdd(x: FieldElement, a: nat, b: nat)
    ensures Pow(x, a + b) == Mul(Pow(x, a), Pow(x, b))
  {
    hide Mul;
    if a == 0 {
      MulOne(Pow(x, b));
    } else {
      PowAdd(x, a - 1, b);
      MulAssociates(x, Pow(x, a - 1), Pow(x, b));
    }
  }

  //////////////////////////////////////////////////////////////////////////////
  // Bit reversal
  //////////////////////////////////////////////////////////////////////////////

  function Pow2(n: nat): (r: nat)
    ensures r >= 1
  {
    if n == 0 then 1 else 2 * Pow2(n - 1)
  }

  lemma Pow2Values()
    ensures Pow2(0) == 1 && Pow2(1) == 2 && Pow2(2) == 4 && Pow2(3) == 8 && Pow2(4) == 16
    ensures Pow2(5) == 32 && Pow2(6) == 64 && Pow2(7) == 128 && Pow2(8) == 256
  {
  }

  lemma {:induction false} Pow2Sum(n: nat, m: nat)
    ensures Pow2(n + m) == Pow2(n) * Pow2(m)
    ensures m == 8 ==> Pow2(m) == 256
  {
    if m == 8 {
      Pow2Values();
    }
    if n > 0 {
      Pow2Sum(n - 1, m);
      Doubled(Pow2(n - 1), Pow2(m));
    }
  }

  lemma Doubled(x: nat, y: nat)
    ensures (2 * x) * y == 2 * (x * y)
  {
  }

  lemma Pow2Sixteen()
    ensures Pow2(16) == 0x1_0000 && Pow2(24) == 0x100_0000
  {
    hide Pow2;
    Pow2Values();
    Pow2Sum(8, 8);
    Pow2Sum(16, 8);
  }

  /** The n bits of k in reverse order. */
  function BitRev(k: nat, n: nat): (r: nat)
    requires k < Pow2(n)
    decreases n
  {
    if n == 0 then 0
    else (if k % 2 == 1 then Pow2(n - 1) else 0) + BitRev(k / 2, n - 1)
  }

  lemma {:induction false} BitRevZero(n: nat)
    ensures BitRev(0, n) == 0
  {
    if n > 0 {
      BitRevZero(n - 1);
    }
  }

  /** One more (zero) leading bit doubles the reversal. */
  lemma {:induction false} BitRevWiden(k: nat, n: nat)
    requires k < Pow2(n)
    ensures BitRev(k, n + 1) == 2 * BitRev(k, n)
    decreases n
  {
    if n > 0 {
      BitRevWiden(k / 2, n - 1);
    }
  }

  lemma BitRevChildren(k: nat)
    requires k < 128
    ensures 2 * k + 1 < Pow2(8)
    ensures BitRev(k, 8) == 2 * BitRev(2 * k, 8)
    ensures BitRev(2 * k + 1, 8) == BitRev(2 * k, 8) + 128
  {
    Pow2Values();
    BitRevWiden(k, 7);
    assert 2 * k / 2 == k && (2 * k + 1) / 2 == k;
  }

  /** The leading bit 2^j of k contributes 2^(n-1-j) to its reversal. */
  lemma {:induction false} BitRevLeading(k: nat, j: nat, n: nat)
    requires Pow2(j) <= k < 2 * Pow2(j) && j < n && k < Pow2(n)
    ensures BitRev(k, n) == BitRev(k - Pow2(j), n) + Pow2(n - 1 - j)
    decreases n
  {
    if j == 0 {
      BitRevZero(n - 1);
    } else {
      assert Pow2(j) == 2 * Pow2(j - 1);
      BitRevLeading(k / 2, j - 1, n - 1);
      assert (k - Pow2(j)) / 2 == k / 2 - Pow2(j - 1);
    }
  }

  /** The inverse transform's table index is the mirror image within a layer. */
  lemma {:induction false} BitRevMirror(k: nat, j: nat, n: nat)
    requires Pow2(j) <= k < 2 * Pow2(j) && j < n && 2 * Pow2(j) <= Pow2(n)
    ensures BitRev(k, n) + BitRev(3 * Pow2(j) - 1 - k, n) == Pow2(n)
    decreases n
  {
    var m := 3 * Pow2(j) - 1 - k;
    if j == 0 {
      BitRevZero(n - 1);
    } else {
      assert Pow2(j) == 2 * Pow2(j - 1);
      assert m / 2 == 3 * Pow2(j - 1) - 1 - k / 2;
      assert k % 2 + m % 2 == 1;
      BitRevMirror(k / 2, j - 1, n - 1);
    }
  }

  //////////////////////////////////////////////////////////////////////////////
  // The table
  //////////////////////////////////////////////////////////////////////////////

  /** Entries lo..hi are the products of the entry without the leading bit t and entry t. */
  predicate ProductsBetween(lo: nat, hi: nat, t: nat)
    requires t <= lo <= hi <= 256 && t < 256
    decreases hi - lo
  {
    lo == hi
    || ((Zeta(lo - t) * Zeta(t) * 8265825) % 8380417 == Zeta(lo) && ProductsBetween(lo + 1, hi, t))
  }

  lemma Products1()
    ensures ProductsBetween(1, 2, 1)
  {
  }

  lemma Products2()
    ensures ProductsBetween(2, 4, 2)
  {
  }

  lemma Products4()
    ensures ProductsBetween(4, 8, 4)
  {
  }

  lemma Products8()
    ensures ProductsBetween(8, 16, 8)
  {
  }

  lemma Products16()
    ensures ProductsBetween(16, 32, 16)
  {
  }

  lemma Products32()
    ensures ProductsBetween(32, 48, 32)
  {
  }

  lemma Products48()
    ensures ProductsBetween(48, 64, 32)
  {
  }

  lemma Products64()
    ensures ProductsBetween(64, 80, 64)
  {
  }

  lemma Products80()
    ensures ProductsBetween(80, 96, 64)
  {
  }

  lemma Products96()
    ensures ProductsBetween(96, 112, 64)
  {
  }

  lemma Products112()
    ensures ProductsBetween(112, 128, 64)
  {
  }

  lemma Products128()
    ensures ProductsBetween(128, 144, 128)
  {
  }

  lemma Products144()
    ensures ProductsBetween(144, 160, 128)
  {
  }

  lemma Products160()
    ensures ProductsBetween(160, 176, 128)
  {
  }

  lemma Products176()
    ensures ProductsBetween(176, 192, 128)
  {
  }

  lemma Products192()
    ensures ProductsBetween(192, 208, 128)
  {
  }

  lemma Products208()
    ensures ProductsBetween(208, 224, 128)
  {
  }

  lemma Products224()
    ensures ProductsBetween(224, 240, 128)
  {
  }

  lemma Products240()
    ensures ProductsBetween(240, 256, 128)
  {
  }

  lemma {:induction false} ProductAt(lo: nat, hi: nat, t: nat, k: nat)
    requires t <= lo <= k < hi <= 256 && t < 256
    requires ProductsBetween(lo, hi, t)
    ensures (Zeta(k - t) * Zeta(t) * 8265825) % 8380417 == Zeta(k)
    decreases k - lo
  {
    hide Zeta;
    if lo < k {
      ProductAt(lo + 1, hi, t, k);
    }
  }

  lemma ZetaProduct(k: nat, j: nat)
    requires j < 8 && Pow2(j) <= k < 2 * Pow2(j) && k < 256
    ensures Zeta(k) == Mul(Zeta(k - Pow2(j)), Zeta(Pow2(j)))
  {
    hide *;
    Pow2Values();
    if k < 2 {
      Products1();
      ProductAt(1, 2, 1, k);
    } else if k < 4 {
      Products2();
      ProductAt(2, 4, 2, k);
    } else if k < 8 {
      Products4();
      ProductAt(4, 8, 4, k);
    } else if k < 16 {
      Products8();
      ProductAt(8, 16, 8, k);
    } else if k < 32 {
      Products16();
      ProductAt(16, 32, 16, k);
    } else if k < 48 {
      Products32();
      ProductAt(32, 48, 32, k);
    } else if k < 64 {
      Products48();
      ProductAt(48, 64, 32, k);
    } else if k < 80 {
      Products64();
      ProductAt(64, 80, 64, k);
    } else if k < 96 {
      Products80();
      ProductAt(80, 96, 64, k);
    } else if k < 112 {
      Products96();
      ProductAt(96, 112, 64, k);
    } else if k < 128 {
      Products112();
      ProductAt(112, 128, 64, k);
    } else if k < 144 {
      Products128();
      ProductAt(128, 144, 128, k);
    } else if k < 160 {
      Products144();
      ProductAt(144, 160, 128, k);
    } else if k < 176 {
      Products160();
      ProductAt(160, 176, 128, k);
    } else if k < 192 {
      Products176();
      ProductAt(176, 192, 128, k);
    } else if k < 208 {
      Products192();
      ProductAt(192, 208, 128, k);
    } else if k < 224 {
      Products208();
      ProductAt(208, 224, 128, k);
    } else if k < 240 {
      Products224();
      ProductAt(224, 240, 128, k);
    } else {
      Products240();
      ProductAt(240, 256, 128, k);
    }
    MulExact(Zeta(k - Pow2(j)), Zeta(Pow2(j)));
  }

  /** The eight entries with one bit are the repeated squares of zeta. */
  lemma ZetaPowersOfTwo()
    ensures Zeta(0) == ONE && Zeta(128) == ZETA
    ensures Mul(Zeta(128), Zeta(128)) == Zeta(64) && Mul(Zeta(64), Zeta(64)) == Zeta(32)
    ensures Mul(Zeta(32), Zeta(32)) == Zeta(16) && Mul(Zeta(16), Zeta(16)) == Zeta(8)
    ensures Mul(Zeta(8), Zeta(8)) == Zeta(4) && Mul(Zeta(4), Zeta(4)) == Zeta(2)
    ensures Mul(Zeta(2), Zeta(2)) == Zeta(1) && Mul(Zeta(1), Zeta(1)) == MINUS_ONE
  {
    hide Mul;
    MulExact(2091667, 2091667);
    MulExact(4450022, 4450022);
    MulExact(2706023, 2706023);
    MulExact(2725464, 2725464);
    MulExact(1826347, 1826347);
    MulExact(237124, 237124);
    MulExact(5771523, 5771523);
    MulExact(25847, 25847);
  }

  lemma {:induction false} SquareOfPow(x: FieldElement, e: nat)
    ensures Mul(Pow(x, e), Pow(x, e)) == Pow(x, 2 * e)
  {
    PowAdd(x, e, e);
  }

  lemma ZetaPow2(j: nat)
    requires j < 8
    ensures Pow2(j) <= 128 && Zeta(Pow2(j)) == Pow(ZETA, Pow2(7 - j))
  {
    hide *;
    Pow2Values();
    ZetaPowersOfTwo();
    PowOne(ZETA);
    SquareOfPow(ZETA, 1);
    SquareOfPow(ZETA, 2);
    SquareOfPow(ZETA, 4);
    SquareOfPow(ZETA, 8);
    SquareOfPow(ZETA, 16);
    SquareOfPow(ZETA, 32);
    SquareOfPow(ZETA, 64);
  }

  lemma PowOne(x: FieldElement)
    ensures Pow(x, 1) == x
  {
    hide Mul;
    MulOne(x);
    assert Pow(x, 0) == ONE;
  }

  /** zeta^256 = -1: zeta is a primitive 512th root of unity. */
  lemma ZetaOrder()
    ensures Pow(ZETA, 256) == MINUS_ONE
  {
    hide *;
    ZetaPowersOfTwo();
    Pow2Values();
    ZetaPow2(0);
    SquareOfPow(ZETA, 128);
  }

  /** The position of the leading bit. */
  function Log2(k: nat): (j: nat)
    requires 1 <= k < 256
    ensures j < 8 && Pow2(j) <= k < 2 * Pow2(j)
  {
    Pow2Values();
    if k < 2 then 0 else if k < 4 then 1 else if k < 8 then 2 else if k < 16 then 3
    else if k < 32 then 4 else if k < 64 then 5 else if k < 128 then 6 else 7
  }

  /** Entry k of the table is zeta^BitRev8(k). */
  lemma {:induction false} ZetaIsPower(k: nat)
    requires k < 256
    ensures Pow2(8) == 256 && Zeta(k) == Pow(ZETA, BitRev(k, 8))
  {
    hide *;
    Pow2Values();
    if k == 0 {
      ZetaPowersOfTwo();
      BitRevZero(8);
      PowZero(ZETA);
    } else {
      var j := Log2(k);
      ZetaIsPower(k - Pow2(j));
      ZetaProduct(k, j);
      ZetaPow2(j);
      BitRevLeading(k, j, 8);
      PowAdd(ZETA, BitRev(k - Pow2(j), 8), Pow2(7 - j));
    }
  }

  lemma PowZero(x: FieldElement)
    ensures Pow(x, 0) == ONE
  {
  }

  //////////////////////////////////////////////////////////////////////////////
  // What the transforms use
  //////////////////////////////////////////////////////////////////////////////

  /** The two square roots taken when a node of the transform splits. */
  lemma ZetaSquares(k: nat)
    requires 1 <= k < 128
    ensures Mul(Zeta(2 * k), Zeta(2 * k)) == Zeta(k)
    ensures Mul(Zeta(2 * k + 1), Zeta(2 * k + 1)) == Neg(Zeta(k))
  {
    hide *;
    ZetaIsPower(k);
    ZetaIsPower(2 * k);
    ZetaIsPower(2 * k + 1);
    BitRevChildren(k);
    SquareOfPow(ZETA, BitRev(2 * k, 8));
    SquareOfPow(ZETA, BitRev(2 * k + 1, 8));
    PowAdd(ZETA, 256, BitRev(k, 8));
    ZetaOrder();
    MulMinusOne(Zeta(k));
  }

  lemma MulMinusOne(a: FieldElement)
    ensures Mul(MINUS_ONE, a) == Neg(a)
    ensures MINUS_ONE == Neg(ONE)
  {
    assert MINUS_ONE == Neg(ONE);
    hide *;
    MulCommutes(MINUS_ONE, a);
    MulNeg(a, ONE);
    MulOne(a);
  }

  lemma ZetaMirror(k: nat, j: nat)
    requires j < 8 && Pow2(j) <= k < 2 * Pow2(j)
    ensures k < 256 && 0 <= 3 * Pow2(j) - 1 - k < 256
    ensures Mul(Zeta(k), Zeta(3 * Pow2(j) - 1 - k)) == MINUS_ONE
  {
    hide *;
    Pow2Values();
    var m := 3 * Pow2(j) - 1 - k;
    ZetaIsPower(k);
    ZetaIsPower(m);
    BitRevMirror(k, j, 8);
    PowAdd(ZETA, BitRev(k, 8), BitRev(m, 8));
    ZetaOrder();
  }
}
