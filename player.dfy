/**
 * The player record of data/Player.kt and the card colour palette.
 */
module PlayerData {
  import opened KotlinInt

  /**
   * One player. The three game fields carry the Kotlin defaults, so
   * `Player(id, name)` is a player on level 1 with no gear and the first colour.
   */
  datatype Player = Player(
    id: Int32,
    name: string,
    level: Int32 := 1,
    gear: Int32 := 0,
    cardColorIndex: Int32 := 0)
  {
    /** The derived power, computed on demand and never stored: Kotlin `Int` addition. */
    function TotalPower(): (power: Int32)
      ensures MinValue <= level + gear <= MaxValue ==> power == level + gear
      ensures (level + gear - power) % Modulus == 0
    {
      Wrap(level + gear)
    }
  }

  /** The card colours as ARGB words, in the order the picker lays them out. */
  const CardColors: seq<int> := [
    0xFF6c757d, 0xFF5f798d, 0xFF667d60,
    0xFF8d6b62, 0xFF8d6e89, 0xFF9d875c,
    0xFF5a6e8a, 0xFFa1a1a1, 0xFF7a6c5d,
    0xFF4a5e5a, 0xFF9a7e6e, 0xFF635f6d,
    0xFFb0a38f, 0xFF7e8a97, 0xFF9c8c82,
    0xFF566573, 0xFFa49e97, 0xFF8c9288
  ]

  /** A colour index the card can look up in the palette without going out of bounds. */
  predicate InPalette(index: int) {
    0 <= index < |CardColors|
  }

  /** The palette has eighteen entries and no colour appears twice. */
  lemma PaletteShape()
    ensures |CardColors| == 18
    ensures forall i, j :: 0 <= i < j < |CardColors| ==> CardColors[i] != CardColors[j]
    ensures forall i :: InPalette(i) <==> 0 <= i <= 17
  {
  }

  /** A player built from an id and a name alone gets the declared defaults. */
  lemma DefaultedPlayer(id: Int32, name: string)
    ensures Player(id, name) == Player(id, name, 1, 0, 0)
    ensures Player(id, name).TotalPower() == 1
    ensures InPalette(Player(id, name).cardColorIndex)
  {
  }

  /** The total power is the sum of level and gear whenever that sum fits in an `Int`. */
  lemma TotalPowerIsSum(p: Player)
    requires MinValue <= p.level + p.gear <= MaxValue
    ensures p.TotalPower() == p.level + p.gear
  {
  }

  /** Players are values: equal exactly when all five stored fields are equal. */
  lemma PlayerEquality(p: Player, q: Player)
    ensures p == q <==>
      p.id == q.id && p.name == q.name && p.level == q.level &&
      p.gear == q.gear && p.cardColorIndex == q.cardColorIndex
  {
  }
}
