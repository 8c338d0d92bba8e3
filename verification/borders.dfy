/**
 * Border selection: which atlas tile draws the transition between an outer
 * landscape (two triangle corners) and an inner landscape (one corner).
 */
module Borders {
  import opened Common
  import opened Landscapes
  import TextureTable

  /**
   * The chain of explicit (outer, inner) pairs, in source order: the primary
   * tile id of the first pair that matches, or None when no pair matches.
   */
  function ExplicitBorder(outer: LandscapeType, inner: LandscapeType): Option<int>
  {
    if outer.Water1? && inner.Water2? then Some(84) else
    if outer.Water2? && inner.Water1? then Some(86) else
    if outer.Water2? && inner.Water3? then Some(88) else
    if outer.Water3? && inner.Water2? then Some(90) else
    if outer.Water3? && inner.Water4? then Some(92) else
    if outer.Water4? && inner.Water3? then Some(94) else
    if outer.Water4? && inner.Water5? then Some(96) else
    if outer.Water5? && inner.Water4? then Some(98) else
    if outer.Water5? && inner.Water6? then Some(100) else
    if outer.Water6? && inner.Water5? then Some(102) else
    if outer.Water6? && inner.Water7? then Some(104) else
    if outer.Water7? && inner.Water6? then Some(106) else
    if outer.Water7? && inner.Water8? then Some(108) else
    if outer.Water8? && inner.Water7? then Some(110) else
    if outer.Grass? && inner.Desert? then Some(181) else
    if outer.Desert? && inner.Grass? then Some(183) else
    if outer.Water1? && inner.Sand? then Some(39) else
    if outer.Sand? && inner.Water1? then Some(37) else
    if outer.Grass? && inner.MountainBorderOuter? then Some(116) else
    if outer.MountainBorderOuter? && inner.Grass? then Some(118) else
    if outer.MountainBorderOuter? && inner.MountainBorder? then Some(120) else
    if outer.MountainBorder? && inner.MountainBorderOuter? then Some(122) else
    if outer.MountainBorder? && inner.Mountain? then Some(124) else
    if outer.Mountain? && inner.MountainBorder? then Some(126) else
    if outer.Mountain? && inner.Snow? then Some(156) else
    if outer.Snow? && inner.Mountain? then Some(158) else
    if outer.Mountain? && inner.SnowBorder? then Some(156) else
    if outer.SnowBorder? && inner.Mountain? then Some(158) else
    if outer.SnowBorder? && inner.Snow? then Some(160) else
    if outer.Snow? && inner.SnowBorder? then Some(162) else
    if outer.Earth? && inner.Grass? then Some(170) else
    if outer.Grass? && inner.Earth? then Some(168) else
    if outer.Grass? && inner.DryGrass? then Some(116) else
    if outer.DryGrass? && inner.Grass? then Some(118) else
    if outer.DryGrass? && inner.Desert? then Some(136) else
    if outer.Desert? && inner.DryGrass? then Some(138) else
    if outer.Grass? && inner.River1? then Some(52) else
    if outer.River1? && inner.Grass? then Some(54) else
    if outer.Grass? && inner.River2? then Some(56) else
    if outer.River2? && inner.Grass? then Some(58) else
    if outer.Grass? && inner.River3? then Some(60) else
    if outer.River3? && inner.Grass? then Some(62) else
    if outer.Grass? && inner.River4? then Some(64) else
    if outer.River4? && inner.Grass? then Some(66) else
    if outer.Sand? && inner.River1? then Some(68) else
    if outer.River1? && inner.Sand? then Some(70) else
    if outer.Sand? && inner.River2? then Some(72) else
    if outer.River2? && inner.Sand? then Some(74) else
    if outer.Sand? && inner.River3? then Some(76) else
    if outer.River3? && inner.Sand? then Some(78) else
    if outer.Sand? && inner.River4? then Some(80) else
    if outer.River4? && inner.Sand? then Some(82) else
    if outer.Grass? && inner.Sand? then Some(114) else
    if outer.Sand? && inner.Grass? then Some(112) else
    if outer.Grass? && inner.Flattened? then Some(172) else
    if outer.Flattened? && inner.Grass? then Some(174) else
    if outer.Grass? && inner.MoorBorder? then Some(201) else
    if outer.MoorBorder? && inner.Grass? then Some(203) else
    if outer.MoorBorder? && inner.MoorInner? then Some(205) else
    if outer.MoorInner? && inner.MoorBorder? then Some(207) else
    if outer.MoorInner? && inner.Moor? then Some(209) else
    if outer.Moor? && inner.MoorInner? then Some(211) else
    if outer.Desert? && inner.SharpFlattenedDesert? then Some(218) else
    if outer.SharpFlattenedDesert? && inner.Desert? then Some(220) else
    if outer.Desert? && inner.FlattenedDesert? then Some(222) else
    if outer.FlattenedDesert? && inner.Desert? then Some(224) else
    if outer.Gravel? && inner.MountainBorder? then Some(231) else
    if outer.MountainBorder? && inner.Gravel? then Some(233) else
    None
  }

  /**
   * The tile id used for an (outer, inner) border. A listed pair yields its
   * primary id, or the next id when `useSecond` holds; any other pair falls
   * back to the outer landscape's own image and ignores `useSecond`.
   * `imageNumber` is the landscape enumeration's image number.
   */
  function GetBorder(imageNumber: LandscapeType -> int, outer: LandscapeType, inner: LandscapeType,
                     useSecond: bool): (r: int)
    ensures ListedBorder(outer, inner).Some? ==>
              r == ListedBorder(outer, inner).value + (if useSecond then 1 else 0)
    ensures ListedBorder(outer, inner).None? ==> r == imageNumber(outer)
  {
    ChainIsListed(outer, inner);
    match ExplicitBorder(outer, inner)
    case Some(index) => if useSecond then index + 1 else index
    case None => imageNumber(outer)
  }

  /**
   * The secondary variant is the next tile exactly for listed pairs; for
   * every other pair both variants are the outer landscape's image.
   */
  lemma SecondVariant(imageNumber: LandscapeType -> int, outer: LandscapeType, inner: LandscapeType)
    ensures GetBorder(imageNumber, outer, inner, true) == GetBorder(imageNumber, outer, inner, false) + 1
            <==> ExplicitBorder(outer, inner).Some?
    ensures ExplicitBorder(outer, inner).None? ==>
              GetBorder(imageNumber, outer, inner, true) == GetBorder(imageNumber, outer, inner, false)
              == imageNumber(outer)
  {
  }

  /** Two different pairs share tile 116: the chain is not injective. */
  lemma SharedBorderTile()
    ensures ExplicitBorder(Grass, MountainBorderOuter) == ExplicitBorder(Grass, DryGrass) == Some(116)
  {
  }

  /**
   * The same pairs as `ExplicitBorder`, written as a nested match on
   * (outer, inner): one case per pair, so no pair can be listed twice and
   * there is no order among the cases.
   */
  function ListedBorder(outer: LandscapeType, inner: LandscapeType): Option<int>
  {
    match outer
    case Water1 =>
      (match inner
       case Water2 => Some(84)
       case Sand => Some(39)
       case _ => None)
    case Water2 =>
      (match inner
       case Water1 => Some(86)
       case Water3 => Some(88)
       case _ => None)
    case Water3 =>
      (match inner
       case Water2 => Some(90)
       case Water4 => Some(92)
       case _ => None)
    case Water4 =>
      (match inner
       case Water3 => Some(94)
       case Water5 => Some(96)
       case _ => None)
    case Water5 =>
      (match inner
       case Water4 => Some(98)
       case Water6 => Some(100)
       case _ => None)
    case Water6 =>
      (match inner
       case Water5 => Some(102)
       case Water7 => Some(104)
       case _ => None)
    case Water7 =>
      (match inner
       case Water6 => Some(106)
       case Water8 => Some(108)
       case _ => None)
    case Water8 =>
      (match inner
       case Water7 => Some(110)
       case _ => None)
    case Grass =>
      (match inner
       case Desert => Some(181)
       case MountainBorderOuter => Some(116)
       case Earth => Some(168)
       case DryGrass => Some(116)
       case River1 => Some(52)
       case River2 => Some(56)
       case River3 => Some(60)
       case River4 => Some(64)
       case Sand => Some(114)
       case Flattened => Some(172)
       case MoorBorder => Some(201)
       case _ => None)
    case Desert =>
      (match inner
       case Grass => Some(183)
       case DryGrass => Some(138)
       case SharpFlattenedDesert => Some(218)
       case FlattenedDesert => Some(222)
       case _ => None)
    case DryGrass =>
      (match inner
       case Grass => Some(118)
       case Desert => Some(136)
       case _ => None)
    case Sand =>
      (match inner
       case Water1 => Some(37)
       case River1 => Some(68)
       case River2 => Some(72)
       case River3 => Some(76)
       case River4 => Some(80)
       case Grass => Some(112)
       case _ => None)
    case Earth =>
      (match inner
       case Grass => Some(170)
       case _ => None)
    case Flattened =>
      (match inner
       case Grass => Some(174)
       case _ => None)
    case MountainBorderOuter =>
      (match inner
       case Grass => Some(118)
       case MountainBorder => Some(120)
       case _ => None)
    case MountainBorder =>
      (match inner
       case MountainBorderOuter => Some(122)
       case Mountain => Some(124)
       case Gravel => Some(233)
       case _ => None)
    case Mountain =>
      (match inner
       case MountainBorder => Some(126)
       case Snow => Some(156)
       case SnowBorder => Some(156)
       case _ => None)
    case SnowBorder =>
      (match inner
       case Mountain => Some(158)
       case Snow => Some(160)
       case _ => None)
    case Snow =>
      (match inner
       case Mountain => Some(158)
       case SnowBorder => Some(162)
       case _ => None)
    case River1 =>
      (match inner
       case Grass => Some(54)
       case Sand => Some(70)
       case _ => None)
    case River2 =>
      (match inner
       case Grass => Some(58)
       case Sand => Some(74)
       case _ => None)
    case River3 =>
      (match inner
       case Grass => Some(62)
       case Sand => Some(78)
       case _ => None)
    case River4 =>
      (match inner
       case Grass => Some(66)
       case Sand => Some(82)
       case _ => None)
    case MoorBorder =>
      (match inner
       case Grass => Some(203)
       case MoorInner => Some(205)
       case _ => None)
    case MoorInner =>
      (match inner
       case MoorBorder => Some(207)
       case Moor => Some(209)
       case _ => None)
    case Moor =>
      (match inner
       case MoorInner => Some(211)
       case _ => None)
    case SharpFlattenedDesert =>
      (match inner
       case Desert => Some(220)
       case _ => None)
    case FlattenedDesert =>
      (match inner
       case Desert => Some(224)
       case _ => None)
    case Gravel =>
      (match inner
       case MountainBorder => Some(231)
       case _ => None)
    case Other(_) => None
  }

  // The chain agrees with the nested match, checked a few outer landscapes
  // at a time to keep each proof obligation small.
  lemma ChainAgreesWater1ToWater3(outer: LandscapeType, inner: LandscapeType)
    requires outer.Water1? || outer.Water2? || outer.Water3?
    ensures ExplicitBorder(outer, inner) == ListedBorder(outer, inner)
  {
  }

  lemma ChainAgreesWater4ToWater6(outer: LandscapeType, inner: LandscapeType)
    requires outer.Water4? || outer.Water5? || outer.Water6?
    ensures ExplicitBorder(outer, inner) == ListedBorder(outer, inner)
  {
  }

  lemma ChainAgreesWater7ToGrass(outer: LandscapeType, inner: LandscapeType)
    requires outer.Water7? || outer.Water8? || outer.Grass?
    ensures ExplicitBorder(outer, inner) == ListedBorder(outer, inner)
  {
  }

  lemma ChainAgreesDesertToSand(outer: LandscapeType, inner: LandscapeType)
    requires outer.Desert? || outer.DryGrass? || outer.Sand?
    ensures ExplicitBorder(outer, inner) == ListedBorder(outer, inner)
  {
  }

  lemma ChainAgreesEarthToMountainBorderOuter(outer: LandscapeType, inner: LandscapeType)
    requires outer.Earth? || outer.Flattened? || outer.MountainBorderOuter?
    ensures ExplicitBorder(outer, inner) == ListedBorder(outer, inner)
  {
  }

  lemma ChainAgreesMountainBorderToSnowBorder(outer: LandscapeType, inner: LandscapeType)
    requires outer.MountainBorder? || outer.Mountain? || outer.SnowBorder?
    ensures ExplicitBorder(outer, inner) == ListedBorder(outer, inner)
  {
  }

  lemma ChainAgreesSnowToRiver2(outer: LandscapeType, inner: LandscapeType)
    requires outer.Snow? || outer.River1? || outer.River2?
    ensures ExplicitBorder(outer, inner) == ListedBorder(outer, inner)
  {
  }

  lemma ChainAgreesRiver3ToMoorBorder(outer: LandscapeType, inner: LandscapeType)
    requires outer.River3? || outer.River4? || outer.MoorBorder?
    ensures ExplicitBorder(outer, inner) == ListedBorder(outer, inner)
  {
  }

  lemma ChainAgreesMoorInnerToSharpFlattenedDesert(outer: LandscapeType, inner: LandscapeType)
    requires outer.MoorInner? || outer.Moor? || outer.SharpFlattenedDesert?
    ensures ExplicitBorder(outer, inner) == ListedBorder(outer, inner)
  {
  }

  lemma ChainAgreesFlattenedDesertToGravel(outer: LandscapeType, inner: LandscapeType)
    requires outer.FlattenedDesert? || outer.Gravel?
    ensures ExplicitBorder(outer, inner) == ListedBorder(outer, inner)
  {
  }

  /**
   * The if/else chain computes the same function as the order-free nested
   * match, so the order of the chain's tests does not matter.
   */
  lemma ChainIsListed(outer: LandscapeType, inner: LandscapeType)
    ensures ExplicitBorder(outer, inner) == ListedBorder(outer, inner)
  {
    match outer
    case Water1 | Water2 | Water3 => ChainAgreesWater1ToWater3(outer, inner);
    case Water4 | Water5 | Water6 => ChainAgreesWater4ToWater6(outer, inner);
    case Water7 | Water8 | Grass => ChainAgreesWater7ToGrass(outer, inner);
    case Desert | DryGrass | Sand => ChainAgreesDesertToSand(outer, inner);
    case Earth | Flattened | MountainBorderOuter => ChainAgreesEarthToMountainBorderOuter(outer, inner);
    case MountainBorder | Mountain | SnowBorder => ChainAgreesMountainBorderToSnowBorder(outer, inner);
    case Snow | River1 | River2 => ChainAgreesSnowToRiver2(outer, inner);
    case River3 | River4 | MoorBorder => ChainAgreesRiver3ToMoorBorder(outer, inner);
    case MoorInner | Moor | SharpFlattenedDesert => ChainAgreesMoorInnerToSharpFlattenedDesert(outer, inner);
    case FlattenedDesert | Gravel => ChainAgreesFlattenedDesertToGravel(outer, inner);
    case Other(_) =>
  }

  // Reverse pairs of the nested match, checked a third of it at a time.
  lemma ListedReverseWater1ToDesert(outer: LandscapeType, inner: LandscapeType)
    requires outer.Water1? || outer.Water2? || outer.Water3? || outer.Water4? || outer.Water5? ||
      outer.Water6? || outer.Water7? || outer.Water8? || outer.Grass? || outer.Desert?
    requires ListedBorder(outer, inner).Some?
    ensures ListedBorder(inner, outer).Some?
    ensures ListedBorder(inner, outer).value == ListedBorder(outer, inner).value + 2
      || ListedBorder(inner, outer).value == ListedBorder(outer, inner).value - 2
  {
  }

  lemma ListedReverseDryGrassToRiver1(outer: LandscapeType, inner: LandscapeType)
    requires outer.DryGrass? || outer.Sand? || outer.Earth? || outer.Flattened? ||
      outer.MountainBorderOuter? || outer.MountainBorder? || outer.Mountain? ||
      outer.SnowBorder? || outer.Snow? || outer.River1?
    requires ListedBorder(outer, inner).Some?
    ensures ListedBorder(inner, outer).Some?
    ensures ListedBorder(inner, outer).value == ListedBorder(outer, inner).value + 2
      || ListedBorder(inner, outer).value == ListedBorder(outer, inner).value - 2
  {
  }

  lemma ListedReverseRiver2ToGravel(outer: LandscapeType, inner: LandscapeType)
    requires outer.River2? || outer.River3? || outer.River4? || outer.MoorBorder? ||
      outer.MoorInner? || outer.Moor? || outer.SharpFlattenedDesert? || outer.FlattenedDesert? ||
      outer.Gravel?
    requires ListedBorder(outer, inner).Some?
    ensures ListedBorder(inner, outer).Some?
    ensures ListedBorder(inner, outer).value == ListedBorder(outer, inner).value + 2
      || ListedBorder(inner, outer).value == ListedBorder(outer, inner).value - 2
  {
  }

  /** Every listed pair's reverse is listed, with an id 2 away. */
  lemma ListedReverse(outer: LandscapeType, inner: LandscapeType)
    requires ListedBorder(outer, inner).Some?
    ensures ListedBorder(inner, outer).Some?
    ensures ListedBorder(inner, outer).value == ListedBorder(outer, inner).value + 2
      || ListedBorder(inner, outer).value == ListedBorder(outer, inner).value - 2
  {
    match outer
    case Water1 | Water2 | Water3 | Water4 | Water5 | Water6 | Water7 | Water8 | Grass |
      Desert =>
      ListedReverseWater1ToDesert(outer, inner);
    case DryGrass | Sand | Earth | Flattened | MountainBorderOuter | MountainBorder |
      Mountain | SnowBorder | Snow | River1 =>
      ListedReverseDryGrassToRiver1(outer, inner);
    case River2 | River3 | River4 | MoorBorder | MoorInner | Moor | SharpFlattenedDesert |
      FlattenedDesert | Gravel =>
      ListedReverseRiver2ToGravel(outer, inner);
  }

  /** Both variants of every listed id lie in the atlas's border range. */
  lemma ListedInBorderRange(outer: LandscapeType, inner: LandscapeType)
    requires ListedBorder(outer, inner).Some?
    ensures TextureTable.InBorderRange(ListedBorder(outer, inner).value)
    ensures TextureTable.InBorderRange(ListedBorder(outer, inner).value + 1)
  {
  }

  /** Every listed pair's reverse is listed too, and the two ids differ by exactly 2. */
  lemma ReversePairListed(outer: LandscapeType, inner: LandscapeType)
    requires ExplicitBorder(outer, inner).Some?
    ensures ExplicitBorder(inner, outer).Some?
    ensures ExplicitBorder(inner, outer).value == ExplicitBorder(outer, inner).value + 2
      || ExplicitBorder(inner, outer).value == ExplicitBorder(outer, inner).value - 2
  {
    ChainIsListed(outer, inner);
    ChainIsListed(inner, outer);
    ListedReverse(outer, inner);
  }

  /** Both variants of every listed border are atlas tile indices. */
  lemma ListedBorderIsTile(outer: LandscapeType, inner: LandscapeType)
    requires ExplicitBorder(outer, inner).Some?
    ensures 0 <= ExplicitBorder(outer, inner).value
    ensures ExplicitBorder(outer, inner).value + 1 < TextureTable.TileCount
  {
    ChainIsListed(outer, inner);
    ListedInBorderRange(outer, inner);
  }

  /**
   * Both variants of every listed border are existing atlas tiles, each a
   * single grid square.
   */
  lemma ListedBordersAreSingleSquares(outer: LandscapeType, inner: LandscapeType)
    requires ExplicitBorder(outer, inner).Some?
    ensures var id := ExplicitBorder(outer, inner).value;
      && 0 <= id && id + 1 < TextureTable.TileCount
      && TextureTable.Positions[id].size == 1
      && TextureTable.Positions[id + 1].size == 1
  {
    ChainIsListed(outer, inner);
    ListedInBorderRange(outer, inner);
    TextureTable.BorderRangeSingle();
  }
}
