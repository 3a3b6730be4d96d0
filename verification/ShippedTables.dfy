/** The tables of large sizes as the source has them, and that they fit the buckets. */
module ShippedTables {
  import opened SizeClasses
  import S = SizeTables

  /** The part of the table of sizes, and of the table of vector numbers, that is used, one row for each
      power of two. What comes before it is zeros. */
  const SIZE_ROWS: seq<seq<nat>> := [
    [1088, 1152, 1216, 1280, 1344, 1408, 1472, 1536, 1600, 1664, 1728, 1792, 1856, 1920, 1984, 2048],
    [2176, 2304, 2432, 2560, 2688, 2816, 2944, 3072, 3200, 3328, 3456, 3584, 3712, 3840, 3968, 4096],
    [4352, 4608, 4864, 5120, 5376, 5632, 5888, 6144, 6400, 6656, 6912, 7168, 7424, 7680, 7936, 8192],
    [8704, 9216, 9728, 10240, 10752, 11264, 11776, 12288, 12800, 13312, 13824, 14336, 14848, 15360, 15872, 16384],
    [17408, 18432, 19456, 20480, 21504, 22528, 23552, 24576, 25600, 26624, 28672, 28672, 30720, 30720, 32768, 32768],
    [34816, 36864, 38912, 43008, 43008, 47104, 47104, 51200, 51200, 57344, 57344, 57344, 65536, 65536, 65536, 65536],
    [73728, 73728, 86016, 86016, 86016, 102400, 102400, 102400, 102400]]

  const INDEX_ROWS: seq<seq<nat>> := [
    [0, 1, 2, 3, 4, 5, 6, 7, 8, 9, 10, 11, 12, 13, 14, 15],
    [16, 17, 18, 19, 20, 21, 22, 23, 24, 25, 26, 27, 28, 29, 30, 31],
    [32, 33, 34, 35, 36, 37, 38, 39, 40, 41, 42, 43, 44, 45, 46, 47],
    [48, 49, 50, 51, 52, 53, 54, 55, 56, 57, 58, 59, 60, 61, 62, 63],
    [64, 65, 66, 67, 68, 69, 70, 71, 72, 73, 74, 74, 75, 75, 76, 76],
    [77, 78, 79, 80, 80, 81, 81, 82, 82, 83, 83, 83, 84, 84, 84, 84],
    [85, 85, 86, 86, 86, 87, 87, 87, 87]]

  function SizeEntry(id: nat): nat
    requires RealId(id)
  {
    SIZE_ROWS[id / 16 - 10][id % 16]
  }

  function VectorEntry(id: nat): nat
    requires RealId(id)
  {
    INDEX_ROWS[id / 16 - 10][id % 16]
  }

  // ----- entry by entry -----

  /** With `w` for its width, the entry is the bucket's end, or it is the same as the next. */
  predicate SizeFits(id: nat, w: nat)
    requires RealId(id)
  {
    && w == Width(id)
    && (SizeEntry(id) == (17 + id % 16) * w || (id < LAST_REAL_ID && SizeEntry(id) == SizeEntry(id + 1)))
  }

  /** The vector number counts the changes in the table of sizes. */
  predicate VectorFits(id: nat)
    requires RealId(id)
  {
    id < LAST_REAL_ID ==> VectorEntry(id + 1) == VectorEntry(id) + if SizeEntry(id + 1) == SizeEntry(id) then 0 else 1
  }

  lemma Entries160(id: nat)
    requires 160 <= id <= 167
    ensures SizeFits(id, 64) && VectorFits(id)
  {
    assert Pow2(6) == 64;
    assert SizeFits(160, 64) && SizeFits(161, 64) && SizeFits(162, 64) && SizeFits(163, 64)
      && SizeFits(164, 64) && SizeFits(165, 64) && SizeFits(166, 64) && SizeFits(167, 64);
    assert VectorFits(160) && VectorFits(161) && VectorFits(162) && VectorFits(163)
      && VectorFits(164) && VectorFits(165) && VectorFits(166) && VectorFits(167);
  }

  lemma Entries168(id: nat)
    requires 168 <= id <= 175
    ensures SizeFits(id, 64) && VectorFits(id)
  {
    assert Pow2(6) == 64;
    assert SizeFits(168, 64) && SizeFits(169, 64) && SizeFits(170, 64) && SizeFits(171, 64)
      && SizeFits(172, 64) && SizeFits(173, 64) && SizeFits(174, 64) && SizeFits(175, 64);
    assert VectorFits(168) && VectorFits(169) && VectorFits(170) && VectorFits(171)
      && VectorFits(172) && VectorFits(173) && VectorFits(174) && VectorFits(175);
  }

  lemma Entries176(id: nat)
    requires 176 <= id <= 183
    ensures SizeFits(id, 128) && VectorFits(id)
  {
    assert Pow2(7) == 128;
    assert SizeFits(176, 128) && SizeFits(177, 128) && SizeFits(178, 128) && SizeFits(179, 128)
      && SizeFits(180, 128) && SizeFits(181, 128) && SizeFits(182, 128) && SizeFits(183, 128);
    assert VectorFits(176) && VectorFits(177) && VectorFits(178) && VectorFits(179)
      && VectorFits(180) && VectorFits(181) && VectorFits(182) && VectorFits(183);
  }

  lemma Entries184(id: nat)
    requires 184 <= id <= 191
    ensures SizeFits(id, 128) && VectorFits(id)
  {
    assert Pow2(7) == 128;
    assert SizeFits(184, 128) && SizeFits(185, 128) && SizeFits(186, 128) && SizeFits(187, 128)
      && SizeFits(188, 128) && SizeFits(189, 128) && SizeFits(190, 128) && SizeFits(191, 128);
    assert VectorFits(184) && VectorFits(185) && VectorFits(186) && VectorFits(187)
      && VectorFits(188) && VectorFits(189) && VectorFits(190) && VectorFits(191);
  }

  lemma Entries192(id: nat)
    requires 192 <= id <= 199
    ensures SizeFits(id, 256) && VectorFits(id)
  {
    assert Pow2(8) == 256;
    assert SizeFits(192, 256) && SizeFits(193, 256) && SizeFits(194, 256) && SizeFits(195, 256)
      && SizeFits(196, 256) && SizeFits(197, 256) && SizeFits(198, 256) && SizeFits(199, 256);
    assert VectorFits(192) && VectorFits(193) && VectorFits(194) && VectorFits(195)
      && VectorFits(196) && VectorFits(197) && VectorFits(198) && VectorFits(199);
  }

  lemma Entries200(id: nat)
    requires 200 <= id <= 207
    ensures SizeFits(id, 256) && VectorFits(id)
  {
    assert Pow2(8) == 256;
    assert SizeFits(200, 256) && SizeFits(201, 256) && SizeFits(202, 256) && SizeFits(203, 256)
      && SizeFits(204, 256) && SizeFits(205, 256) && SizeFits(206, 256) && SizeFits(207, 256);
    assert VectorFits(200) && VectorFits(201) && VectorFits(202) && VectorFits(203)
      && VectorFits(204) && VectorFits(205) && VectorFits(206) && VectorFits(207);
  }

  lemma Entries208(id: nat)
    requires 208 <= id <= 215
    ensures SizeFits(id, 512) && VectorFits(id)
  {
    assert Pow2(9) == 512;
    assert SizeFits(208, 512) && SizeFits(209, 512) && SizeFits(210, 512) && SizeFits(211, 512)
      && SizeFits(212, 512) && SizeFits(213, 512) && SizeFits(214, 512) && SizeFits(215, 512);
    assert VectorFits(208) && VectorFits(209) && VectorFits(210) && VectorFits(211)
      && VectorFits(212) && VectorFits(213) && VectorFits(214) && VectorFits(215);
  }

  lemma Entries216(id: nat)
    requires 216 <= id <= 223
    ensures SizeFits(id, 512) && VectorFits(id)
  {
    assert Pow2(9) == 512;
    assert SizeFits(216, 512) && SizeFits(217, 512) && SizeFits(218, 512) && SizeFits(219, 512)
      && SizeFits(220, 512) && SizeFits(221, 512) && SizeFits(222, 512) && SizeFits(223, 512);
    assert VectorFits(216) && VectorFits(217) && VectorFits(218) && VectorFits(219)
      && VectorFits(220) && VectorFits(221) && VectorFits(222) && VectorFits(223);
  }

  lemma Entries224(id: nat)
    requires 224 <= id <= 227
    ensures SizeFits(id, 1024) && VectorFits(id)
  {
    assert Pow2(10) == 1024;
    assert SizeFits(224, 1024) && SizeFits(225, 1024) && SizeFits(226, 1024) && SizeFits(227, 1024);
    assert VectorFits(224) && VectorFits(225) && VectorFits(226) && VectorFits(227);
  }

  lemma Entries228(id: nat)
    requires 228 <= id <= 231
    ensures SizeFits(id, 1024) && VectorFits(id)
  {
    assert Pow2(10) == 1024;
    assert SizeFits(228, 1024) && SizeFits(229, 1024) && SizeFits(230, 1024) && SizeFits(231, 1024);
    assert VectorFits(228) && VectorFits(229) && VectorFits(230) && VectorFits(231);
  }

  lemma Entries232(id: nat)
    requires 232 <= id <= 235
    ensures SizeFits(id, 1024) && VectorFits(id)
  {
    assert Pow2(10) == 1024;
    assert SizeFits(232, 1024) && SizeFits(233, 1024) && SizeFits(234, 1024) && SizeFits(235, 1024);
    assert VectorFits(232) && VectorFits(233) && VectorFits(234) && VectorFits(235);
  }

  lemma Entries236(id: nat)
    requires 236 <= id <= 239
    ensures SizeFits(id, 1024) && VectorFits(id)
  {
    assert Pow2(10) == 1024;
    assert SizeFits(236, 1024) && SizeFits(237, 1024) && SizeFits(238, 1024) && SizeFits(239, 1024);
    assert VectorFits(236) && VectorFits(237) && VectorFits(238) && VectorFits(239);
  }

  lemma Entries240(id: nat)
    requires 240 <= id <= 243
    ensures SizeFits(id, 2048) && VectorFits(id)
  {
    assert Pow2(11) == 2048;
    assert SizeFits(240, 2048) && SizeFits(241, 2048) && SizeFits(242, 2048) && SizeFits(243, 2048);
    assert VectorFits(240) && VectorFits(241) && VectorFits(242) && VectorFits(243);
  }

  lemma Entries244(id: nat)
    requires 244 <= id <= 247
    ensures SizeFits(id, 2048) && VectorFits(id)
  {
    assert Pow2(11) == 2048;
    assert SizeFits(244, 2048) && SizeFits(245, 2048) && SizeFits(246, 2048) && SizeFits(247, 2048);
    assert VectorFits(244) && VectorFits(245) && VectorFits(246) && VectorFits(247);
  }

  lemma Entries248(id: nat)
    requires 248 <= id <= 251
    ensures SizeFits(id, 2048) && VectorFits(id)
  {
    assert Pow2(11) == 2048;
    assert SizeFits(248, 2048) && SizeFits(249, 2048) && SizeFits(250, 2048) && SizeFits(251, 2048);
    assert VectorFits(248) && VectorFits(249) && VectorFits(250) && VectorFits(251);
  }

  lemma Entries252(id: nat)
    requires 252 <= id <= 255
    ensures SizeFits(id, 2048) && VectorFits(id)
  {
    assert Pow2(11) == 2048;
    assert SizeFits(252, 2048) && SizeFits(253, 2048) && SizeFits(254, 2048) && SizeFits(255, 2048);
    assert VectorFits(252) && VectorFits(253) && VectorFits(254) && VectorFits(255);
  }

  lemma Entries256(id: nat)
    requires 256 <= id <= 259
    ensures SizeFits(id, 4096) && VectorFits(id)
  {
    assert Pow2(12) == 4096;
    assert SizeFits(256, 4096) && SizeFits(257, 4096) && SizeFits(258, 4096) && SizeFits(259, 4096);
    assert VectorFits(256) && VectorFits(257) && VectorFits(258) && VectorFits(259);
  }

  lemma Entries260(id: nat)
    requires 260 <= id <= 263
    ensures SizeFits(id, 4096) && VectorFits(id)
  {
    assert Pow2(12) == 4096;
    assert SizeFits(260, 4096) && SizeFits(261, 4096) && SizeFits(262, 4096) && SizeFits(263, 4096);
    assert VectorFits(260) && VectorFits(261) && VectorFits(262) && VectorFits(263);
  }

  lemma Entries264(id: nat)
    requires 264 <= id <= 264
    ensures SizeFits(id, 4096) && VectorFits(id)
  {
    assert Pow2(12) == 4096;
    assert SizeFits(264, 4096);
    assert VectorFits(264);
  }

  lemma Entry(id: nat)
    requires RealId(id)
    ensures SizeFits(id, Width(id)) && VectorFits(id)
  {
    if id < 168 { Entries160(id); } else if id < 176 { Entries168(id); } else if id < 184 { Entries176(id); }
    else if id < 192 { Entries184(id); } else if id < 200 { Entries192(id); } else if id < 208 { Entries200(id); }
    else if id < 216 { Entries208(id); } else if id < 224 { Entries216(id); } else if id < 228 { Entries224(id); }
    else if id < 232 { Entries228(id); } else if id < 236 { Entries232(id); } else if id < 240 { Entries236(id); }
    else if id < 244 { Entries240(id); } else if id < 248 { Entries244(id); } else if id < 252 { Entries248(id); }
    else if id < 256 { Entries252(id); } else if id < 260 { Entries256(id); } else if id < 264 { Entries260(id); }
    else { Entries264(id); }
  }

  lemma SizeMeans(id: nat)
    requires RealId(id)
    ensures SizeEntry(id) == Upper(id) || (id < LAST_REAL_ID && SizeEntry(id) == SizeEntry(id + 1))
  {
    Entry(id);
  }

  lemma VectorMeans(id: nat)
    requires RealId(id)
    ensures VectorFits(id)
  {
    Entry(id);
  }

  // ----- the tables -----

  /** The used part of the tables. */
  ghost function Shipped(): (t: S.Tables)
    ensures |t.ends| == |t.sizes| == |t.vectors| == LAST_REAL_ID + 1 - FIRST_ID
  {
    S.Tables(seq<nat>(105, i requires 0 <= i < 105 => Upper(FIRST_ID + i)),
             seq<nat>(105, i requires 0 <= i < 105 => SizeEntry(FIRST_ID + i)),
             seq<nat>(105, i requires 0 <= i < 105 => VectorEntry(FIRST_ID + i)))
  }

  lemma ShippedSize(id: nat)
    requires RealId(id)
    ensures S.EntryOk(Shipped(), id - FIRST_ID)
  {
    SizeMeans(id);
    assert Shipped().sizes[id - FIRST_ID] == SizeEntry(id);
  }

  /** The entries of a bucket in the tables. */
  lemma ShippedAt(id: nat)
    requires RealId(id)
    ensures Shipped().sizes[id - FIRST_ID] == SizeEntry(id) && Shipped().vectors[id - FIRST_ID] == VectorEntry(id)
  {
  }

  lemma VectorOkIf(t: S.Tables, i: nat, size: nat, next: nat)
    requires S.Sized(t) && i + 1 < |t.sizes| && t.sizes[i] == size && t.sizes[i + 1] == next
    requires t.vectors[i + 1] == t.vectors[i] + if next == size then 0 else 1
    ensures S.VectorOk(t, i)
  {
  }

  lemma ShippedVector(id: nat)
    requires RealId(id)
    ensures S.VectorOk(Shipped(), id - FIRST_ID)
  {
    if id < LAST_REAL_ID {
      VectorMeans(id);
      ShippedAt(id);
      ShippedAt(id + 1);
      VectorOkIf(Shipped(), id - FIRST_ID, SizeEntry(id), SizeEntry(id + 1));
    }
  }

  lemma EndsAscend()
    ensures forall i, j :: 0 <= i < j < 105 ==> Shipped().ends[i] < Shipped().ends[j]
  {
    forall i, j | 0 <= i < j < 105 ensures Shipped().ends[i] < Shipped().ends[j] {
      UpperAscends(FIRST_ID + i, FIRST_ID + j);
      BucketsMeet(FIRST_ID + j);
    }
  }

  lemma FirstEntry()
    ensures Shipped().ends[0] > 0 && Shipped().vectors[0] == 0
  {
    BucketsMeet(FIRST_ID);
    assert VectorEntry(160) == 0;
  }

  lemma PowersKept()
    ensures KeepsPowers(Shipped())
  {
    assert SizeEntry(175) == 2048 && SizeEntry(191) == 4096 && SizeEntry(207) == 8192;
    assert SizeEntry(223) == 16384 && SizeEntry(239) == 32768 && SizeEntry(255) == 65536;
    assert Pow2(11) == 2048 && Pow2(12) == 4096 && Pow2(13) == 8192;
    assert Pow2(14) == 16384 && Pow2(15) == 32768 && Pow2(16) == 65536;
    forall b | 11 <= b <= 16 ensures Shipped().sizes[16 * b - 1 - FIRST_ID] == Pow2(b) {}
  }

  /** What is proved of tables that fit holds of the tables shipped. */
  lemma ShippedFit()
    ensures Fit(Shipped())
  {
    EndsAscend();
    FirstEntry();
    PowersKept();
    forall i | 0 <= i < 105 ensures S.EntryOk(Shipped(), i) && S.VectorOk(Shipped(), i) {
      ShippedSize(FIRST_ID + i);
      ShippedVector(FIRST_ID + i);
    }
  }

  /** The whole table of sizes, with the zeros. */
  function LargeSizesForId(): (t: seq<nat>)
    ensures |t| == LAST_REAL_ID + 1
  {
    seq<nat>(265, id requires 0 <= id < 265 => if id < FIRST_ID then 0 else SizeEntry(id))
  }

  const REAL_NUMBER_OF_LARGE_OBJECT_VECTORS: nat := 88

  /** The sizes by vector: as many as there are vectors, and each bucket's size is at its vector. */
  lemma VectorOfId(id: nat)
    requires RealId(id)
    ensures var sizes := S.RealSizes(LargeSizesForId(), 265);
            && |sizes| == REAL_NUMBER_OF_LARGE_OBJECT_VECTORS
            && VectorEntry(id) < |sizes| && sizes[VectorEntry(id)] == SizeEntry(id)
  {
    ShippedFit();
    assert S.Padded(Shipped(), LargeSizesForId(), FIRST_ID);
    S.VectorOfBucket(Shipped(), LargeSizesForId(), FIRST_ID, id - FIRST_ID);
    assert VectorEntry(264) == 87;
  }

  lemma VectorBelow(id: nat)
    requires RealId(id)
    ensures VectorForId(Shipped(), id) < REAL_NUMBER_OF_LARGE_OBJECT_VECTORS
  {
    VectorOfId(id);
    ShippedAt(id);
  }
}
