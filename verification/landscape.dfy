/**
 * The landscape types of the map. Only the constants that the border table
 * names are spelled out; every other constant of the game's landscape
 * enumeration is represented by `Other` carrying an identifier that tells
 * the remaining constants apart.
 */
module Landscapes {

  datatype LandscapeType =
    | Water1 | Water2 | Water3 | Water4 | Water5 | Water6 | Water7 | Water8
    | Grass | Desert | DryGrass | Sand | Earth | Flattened
    | MountainBorderOuter | MountainBorder | Mountain | SnowBorder | Snow
    | River1 | River2 | River3 | River4
    | MoorBorder | MoorInner | Moor
    | SharpFlattenedDesert | FlattenedDesert | Gravel
    | Other(id: nat)
}
