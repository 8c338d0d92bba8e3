/**
 * The atlas tile table: where each landscape image sits in the 1024x1024
 * background texture, in units of 32-texel grid squares, and how many grid
 * squares it spans.
 */
module TextureTable {

  /** Edge length of the square atlas, in texels. */
  const TextureSize: int := 1024

  /** Edge length of one grid square of the atlas, in texels. */
  const Grid: int := 32

  /** Number of grid squares along one edge of the atlas. */
  const GridCount: int := 32

  /** Number of landscape images placed on the atlas. */
  const TileCount: int := 235

  /**
   * One atlas entry. `size` is 1 for border tiles and 2..5 for continuous
   * tiles, which are repeated with period `size - 1` grid squares.
   */
  datatype Tile = Tile(gridX: int, gridY: int, size: int) {
    predicate IsContinuous() { size >= 2 }
  }

  /** A tile lies inside the atlas grid and has one of the allowed sizes. */
  predicate Fits(t: Tile) {
    && 1 <= t.size <= 5
    && 0 <= t.gridX && t.gridX + t.size <= GridCount
    && 0 <= t.gridY && t.gridY + t.size <= GridCount
  }

  const Block0: seq<Tile> := [
    Tile(0, 0, 5),  // 0
    Tile(5, 0, 5),  // 1
    Tile(10, 0, 5),  // 2
    Tile(15, 0, 5),  // 3
    Tile(20, 0, 5),  // 4
    Tile(30, 0, 1),  // 5
    Tile(31, 0, 1),  // 6
    Tile(25, 0, 5),  // 7
    Tile(30, 1, 1),  // 8
    Tile(31, 1, 1),  // 9
    Tile(0, 5, 5),  // 10
    Tile(0, 20, 2),  // 11
    Tile(2, 20, 2),  // 12
    Tile(4, 20, 2),  // 13
    Tile(6, 20, 2),  // 14
    Tile(8, 20, 2),  // 15
    Tile(10, 20, 2),  // 16
    Tile(12, 20, 2),  // 17
    Tile(5, 5, 5),  // 18
    Tile(31, 5, 1),  // 19
    Tile(30, 6, 1),  // 20
    Tile(10, 5, 5),  // 21
    Tile(31, 6, 1),  // 22
    Tile(30, 7, 1),  // 23
    Tile(15, 5, 5),  // 24
    Tile(31, 7, 1),  // 25
    Tile(30, 8, 1),  // 26
    Tile(31, 8, 1),  // 27
    Tile(30, 9, 1),  // 28
    Tile(31, 9, 1),  // 29
    Tile(30, 10, 1),  // 30
    Tile(20, 5, 5),  // 31
    Tile(31, 10, 1),  // 32
    Tile(30, 11, 1),  // 33
    Tile(31, 11, 1),  // 34
    Tile(25, 5, 5),  // 35
    Tile(0, 10, 5),  // 36
    Tile(30, 13, 1),  // 37
    Tile(31, 13, 1),  // 38
    Tile(30, 14, 1),  // 39
    Tile(31, 14, 1)  // 40
  ]

  const Block1: seq<Tile> := [
    Tile(0, 15, 1),  // 41
    Tile(1, 15, 1),  // 42
    Tile(2, 15, 1),  // 43
    Tile(3, 15, 1),  // 44
    Tile(4, 15, 1),  // 45
    Tile(5, 15, 1),  // 46
    Tile(6, 15, 1),  // 47
    Tile(7, 15, 1),  // 48
    Tile(8, 15, 1),  // 49
    Tile(9, 15, 1),  // 50
    Tile(10, 15, 1),  // 51
    Tile(11, 15, 1),  // 52
    Tile(12, 15, 1),  // 53
    Tile(13, 15, 1),  // 54
    Tile(14, 15, 1),  // 55
    Tile(15, 15, 1),  // 56
    Tile(16, 15, 1),  // 57
    Tile(17, 15, 1),  // 58
    Tile(18, 15, 1),  // 59
    Tile(19, 15, 1),  // 60
    Tile(20, 15, 1),  // 61
    Tile(21, 15, 1),  // 62
    Tile(22, 15, 1),  // 63
    Tile(23, 15, 1),  // 64
    Tile(24, 15, 1),  // 65
    Tile(25, 15, 1),  // 66
    Tile(26, 15, 1),  // 67
    Tile(27, 15, 1),  // 68
    Tile(28, 15, 1),  // 69
    Tile(29, 15, 1),  // 70
    Tile(30, 15, 1),  // 71
    Tile(31, 15, 1)  // 72
  ]

  const Block2: seq<Tile> := [
    Tile(0, 16, 1),  // 73
    Tile(1, 16, 1),  // 74
    Tile(2, 16, 1),  // 75
    Tile(3, 16, 1),  // 76
    Tile(4, 16, 1),  // 77
    Tile(5, 16, 1),  // 78
    Tile(6, 16, 1),  // 79
    Tile(7, 16, 1),  // 80
    Tile(8, 16, 1),  // 81
    Tile(9, 16, 1),  // 82
    Tile(10, 16, 1),  // 83
    Tile(11, 16, 1),  // 84
    Tile(12, 16, 1),  // 85
    Tile(13, 16, 1),  // 86
    Tile(14, 16, 1),  // 87
    Tile(15, 16, 1),  // 88
    Tile(16, 16, 1),  // 89
    Tile(17, 16, 1),  // 90
    Tile(18, 16, 1),  // 91
    Tile(19, 16, 1),  // 92
    Tile(20, 16, 1),  // 93
    Tile(21, 16, 1),  // 94
    Tile(22, 16, 1),  // 95
    Tile(23, 16, 1),  // 96
    Tile(24, 16, 1),  // 97
    Tile(30, 16, 1),  // 98
    Tile(31, 12, 1),  // 99
    Tile(25, 12, 1),  // 100
    Tile(26, 16, 1),  // 101
    Tile(27, 16, 1),  // 102
    Tile(28, 16, 1),  // 103
    Tile(29, 16, 1),  // 104
    Tile(30, 16, 1),  // 105
    Tile(31, 16, 1)  // 106
  ]

  const Block3: seq<Tile> := [
    Tile(0, 17, 1),  // 107
    Tile(1, 17, 1),  // 108
    Tile(2, 17, 1),  // 109
    Tile(3, 17, 1),  // 110
    Tile(4, 17, 1),  // 111
    Tile(5, 17, 1),  // 112
    Tile(6, 17, 1),  // 113
    Tile(7, 17, 1),  // 114
    Tile(8, 17, 1),  // 115
    Tile(9, 17, 1),  // 116
    Tile(10, 17, 1),  // 117
    Tile(11, 17, 1),  // 118
    Tile(12, 17, 1),  // 119
    Tile(13, 17, 1),  // 120
    Tile(14, 17, 1),  // 121
    Tile(15, 17, 1),  // 122
    Tile(16, 17, 1),  // 123
    Tile(17, 17, 1),  // 124
    Tile(18, 17, 1),  // 125
    Tile(19, 17, 1),  // 126
    Tile(20, 17, 1),  // 127
    Tile(21, 17, 1),  // 128
    Tile(22, 17, 1),  // 129
    Tile(23, 17, 1),  // 130
    Tile(24, 17, 1),  // 131
    Tile(25, 17, 1),  // 132
    Tile(26, 17, 1),  // 133
    Tile(27, 17, 1),  // 134
    Tile(28, 17, 1),  // 135
    Tile(29, 17, 1),  // 136
    Tile(30, 17, 1),  // 137
    Tile(31, 17, 1)  // 138
  ]

  const Block4: seq<Tile> := [
    Tile(0, 18, 1),  // 139
    Tile(1, 18, 1),  // 140
    Tile(2, 18, 1),  // 141
    Tile(3, 18, 1),  // 142
    Tile(4, 18, 1),  // 143
    Tile(5, 18, 1),  // 144
    Tile(6, 18, 1),  // 145
    Tile(7, 18, 1),  // 146
    Tile(8, 18, 1),  // 147
    Tile(9, 18, 1),  // 148
    Tile(10, 18, 1),  // 149
    Tile(11, 18, 1),  // 150
    Tile(12, 18, 1),  // 151
    Tile(13, 18, 1),  // 152
    Tile(14, 18, 1),  // 153
    Tile(15, 18, 1),  // 154
    Tile(16, 18, 1),  // 155
    Tile(17, 18, 1),  // 156
    Tile(18, 18, 1),  // 157
    Tile(19, 18, 1),  // 158
    Tile(20, 18, 1),  // 159
    Tile(21, 18, 1),  // 160
    Tile(22, 18, 1),  // 161
    Tile(23, 18, 1),  // 162
    Tile(24, 18, 1),  // 163
    Tile(25, 18, 1),  // 164
    Tile(26, 18, 1),  // 165
    Tile(27, 18, 1),  // 166
    Tile(28, 18, 1),  // 167
    Tile(29, 18, 1),  // 168
    Tile(30, 18, 1),  // 169
    Tile(31, 18, 1)  // 170
  ]

  const Block5: seq<Tile> := [
    Tile(0, 19, 1),  // 171
    Tile(1, 19, 1),  // 172
    Tile(2, 19, 1),  // 173
    Tile(3, 19, 1),  // 174
    Tile(4, 19, 1),  // 175
    Tile(5, 10, 5),  // 176
    Tile(6, 19, 1),  // 177
    Tile(7, 19, 1),  // 178
    Tile(8, 19, 1),  // 179
    Tile(9, 19, 1),  // 180
    Tile(10, 19, 1),  // 181
    Tile(11, 19, 1),  // 182
    Tile(12, 19, 1),  // 183
    Tile(13, 19, 1),  // 184
    Tile(14, 19, 1),  // 185
    Tile(15, 19, 1),  // 186
    Tile(16, 19, 1),  // 187
    Tile(17, 19, 1),  // 188
    Tile(18, 19, 1),  // 189
    Tile(19, 19, 1),  // 190
    Tile(20, 19, 1),  // 191
    Tile(21, 19, 1),  // 192
    Tile(22, 19, 1),  // 193
    Tile(23, 19, 1),  // 194
    Tile(24, 19, 1),  // 195
    Tile(25, 19, 1),  // 196
    Tile(26, 19, 1),  // 197
    Tile(27, 19, 1),  // 198
    Tile(28, 19, 1),  // 199
    Tile(29, 19, 1),  // 200
    Tile(30, 19, 1),  // 201
    Tile(31, 19, 1)  // 202
  ]

  const Block6: seq<Tile> := [
    Tile(0, 22, 1),  // 203
    Tile(1, 22, 1),  // 204
    Tile(2, 22, 1),  // 205
    Tile(3, 22, 1),  // 206
    Tile(4, 22, 1),  // 207
    Tile(5, 22, 1),  // 208
    Tile(6, 22, 1),  // 209
    Tile(7, 22, 1),  // 210
    Tile(8, 22, 1),  // 211
    Tile(9, 22, 1),  // 212
    Tile(10, 22, 1),  // 213
    Tile(11, 22, 1),  // 214
    Tile(12, 22, 1),  // 215
    Tile(13, 22, 1),  // 216
    Tile(14, 20, 5),  // 217
    Tile(1, 23, 1),  // 218
    Tile(2, 23, 1),  // 219
    Tile(3, 23, 1),  // 220
    Tile(4, 23, 1),  // 221
    Tile(5, 23, 1),  // 222
    Tile(6, 23, 1),  // 223
    Tile(7, 23, 1),  // 224
    Tile(8, 23, 1),  // 225
    Tile(9, 23, 1),  // 226
    Tile(10, 23, 1),  // 227
    Tile(11, 23, 1),  // 228
    Tile(12, 23, 1),  // 229
    Tile(19, 20, 5),  // 230
    Tile(13, 23, 1),  // 231
    Tile(0, 24, 1),  // 232
    Tile(1, 24, 1),  // 233
    Tile(2, 24, 1)  // 234
  ]
  /** The whole table, indexed by landscape image number. */
  const Positions: seq<Tile> := Block0 + Block1 + Block2 + Block3 + Block4 + Block5 + Block6

  predicate AllFit(s: seq<Tile>) {
    forall k | 0 <= k < |s| :: Fits(s[k])
  }

  lemma AllFitConcat(a: seq<Tile>, b: seq<Tile>)
    requires AllFit(a) && AllFit(b)
    ensures AllFit(a + b)
  {
    forall k | 0 <= k < |a + b|
      ensures Fits((a + b)[k])
    {
      if k >= |a| {
        assert (a + b)[k] == b[k - |a|];
      }
    }
  }

  // One lemma per block keeps each proof obligation small.
  lemma Block0Fits() ensures AllFit(Block0) { }
  lemma Block1Fits() ensures AllFit(Block1) { }
  lemma Block2Fits() ensures AllFit(Block2) { }
  lemma Block3Fits() ensures AllFit(Block3) { }
  lemma Block4Fits() ensures AllFit(Block4) { }
  lemma Block5Fits() ensures AllFit(Block5) { }
  lemma Block6Fits() ensures AllFit(Block6) { }

  /**
   * Every table entry has size 1..5 and lies completely inside the 32x32
   * grid, so every tile region is inside the atlas.
   */
  lemma PositionsFit()
    ensures |Positions| == TileCount
    ensures forall k | 0 <= k < TileCount :: Fits(Positions[k])
  {
    Block0Fits(); Block1Fits(); Block2Fits(); Block3Fits();
    Block4Fits(); Block5Fits(); Block6Fits();
    AllFitConcat(Block0, Block1);
    AllFitConcat(Block0 + Block1, Block2);
    AllFitConcat(Block0 + Block1 + Block2, Block3);
    AllFitConcat(Block0 + Block1 + Block2 + Block3, Block4);
    AllFitConcat(Block0 + Block1 + Block2 + Block3 + Block4, Block5);
    AllFitConcat(Block0 + Block1 + Block2 + Block3 + Block4 + Block5, Block6);
  }

  /**
   * The ids from which border tiles are drawn: all of them are single grid
   * squares (the continuous tiles 176, 217 and 230 lie outside these ranges).
   */
  predicate InBorderRange(k: int) {
    37 <= k <= 175 || 177 <= k <= 216 || 218 <= k <= 229 || 231 <= k < TileCount
  }

  /** Every entry of `s` whose table index (`offset` + position) is in the border range is a single square. */
  predicate SingleInRange(s: seq<Tile>, offset: int) {
    forall k | 0 <= k < |s| && InBorderRange(offset + k) :: s[k].size == 1
  }

  lemma SingleInRangeConcat(a: seq<Tile>, b: seq<Tile>, offset: int)
    requires SingleInRange(a, offset) && SingleInRange(b, offset + |a|)
    ensures SingleInRange(a + b, offset)
  {
    forall k | 0 <= k < |a + b| && InBorderRange(offset + k)
      ensures (a + b)[k].size == 1
    {
      if k >= |a| {
        assert (a + b)[k] == b[k - |a|];
      }
    }
  }

  // One lemma per block keeps each proof obligation small.
  lemma Block0Single() ensures SingleInRange(Block0, 0) { }
  lemma Block1Single() ensures SingleInRange(Block1, 41) { }
  lemma Block2Single() ensures SingleInRange(Block2, 73) { }
  lemma Block3Single() ensures SingleInRange(Block3, 107) { }
  lemma Block4Single() ensures SingleInRange(Block4, 139) { }
  lemma Block5Single() ensures SingleInRange(Block5, 171) { }
  lemma Block6Single() ensures SingleInRange(Block6, 203) { }

  /** Every id in the border range names a single-square tile. */
  lemma BorderRangeSingle()
    ensures |Positions| == TileCount
    ensures forall k | InBorderRange(k) :: Positions[k].size == 1
  {
    Block0Single(); Block1Single(); Block2Single(); Block3Single();
    Block4Single(); Block5Single(); Block6Single();
    SingleInRangeConcat(Block0, Block1, 0);
    SingleInRangeConcat(Block0 + Block1, Block2, 0);
    SingleInRangeConcat(Block0 + Block1 + Block2, Block3, 0);
    SingleInRangeConcat(Block0 + Block1 + Block2 + Block3, Block4, 0);
    SingleInRangeConcat(Block0 + Block1 + Block2 + Block3 + Block4, Block5, 0);
    SingleInRangeConcat(Block0 + Block1 + Block2 + Block3 + Block4 + Block5, Block6, 0);
    assert SingleInRange(Positions, 0);
  }

  /** Entries 98 and 105 are placed on the same grid square (30, 16). */
  lemma SharedSquare()
    ensures Positions[98] == Positions[105] == Tile(30, 16, 1)
  {
  }
}
