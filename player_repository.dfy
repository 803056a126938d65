/**
 * The player repository: the list lives in one slot, "players_list", of the
 * app's preference store. `playersFlow` decodes that slot, falling back to the
 * one-player default list when the slot is empty or cannot be decoded, and
 * `savePlayers` overwrites the slot with the encoded list. The older edition
 * of the repository in MainActivity.kt, which has no fall-back for a slot it
 * cannot decode, is modelled beside it.
 */
module Repository {
  import opened Wrappers
  import opened PlayerData
  import JsonCodec

  /** The preference key of the slot that holds the encoded list. */
  const PlayersKey: string := "players_list"

  /**
   * The serialisation library as the repository sees it: the text it writes
   * for a list, and the list it reads from a text, `None` where it throws.
   */
  datatype Codec = Codec(encode: seq<Player> -> string, decode: string -> Option<seq<Player>>)

  /** The law the repository relies on: every list the codec writes reads back unchanged. */
  ghost predicate RoundTrip(codec: Codec) {
    forall ps :: codec.decode(codec.encode(ps)) == Some(ps)
  }

  /** The JSON codec of the app, in the shape kotlinx.serialization writes. */
  const Json: Codec := Codec(JsonCodec.Encode, JsonCodec.Decode)

  /** The JSON codec satisfies the law, so assuming it is not vacuous. */
  lemma JsonRoundTrip()
    ensures RoundTrip(Json)
  {
    forall ps: seq<Player> ensures Json.decode(Json.encode(ps)) == Some(ps) {
      JsonCodec.DecodeEncode(ps);
    }
  }

  /** `createDefaultPlayerList()`: one player, "Игрок 1", with id 1 and the default fields. */
  function DefaultPlayerList(): (ps: seq<Player>)
    ensures |ps| == 1 && ps[0] == Player(1, "Игрок 1", 1, 0, 0)
  {
    [Player(1, "Игрок 1")]
  }

  /** What `playersFlow` maps one snapshot of the preferences to. */
  function PlayersFrom(codec: Codec, preferences: map<string, string>): (ps: seq<Player>)
    ensures ps == DefaultPlayerList()
      || (PlayersKey in preferences && codec.decode(preferences[PlayersKey]) == Some(ps))
  {
    if PlayersKey in preferences then
      match codec.decode(preferences[PlayersKey])
      case Some(ps) => ps
      case None => DefaultPlayerList()
    else DefaultPlayerList()
  }

  /**
   * The outcome of the flow: the default list when the slot is absent or its
   * text does not decode, and otherwise the decoded list; no error escapes.
   */
  lemma PlayersFromCases(codec: Codec, preferences: map<string, string>)
    ensures PlayersKey !in preferences ==> PlayersFrom(codec, preferences) == DefaultPlayerList()
    ensures PlayersKey in preferences && codec.decode(preferences[PlayersKey]).None?
      ==> PlayersFrom(codec, preferences) == DefaultPlayerList()
    ensures PlayersKey in preferences && codec.decode(preferences[PlayersKey]).Some?
      ==> PlayersFrom(codec, preferences) == codec.decode(preferences[PlayersKey]).value
  {
  }

  /** Only the "players_list" slot matters to the flow: other keys are ignored. */
  lemma PlayersFromIgnoresOtherKeys(codec: Codec, p: map<string, string>, q: map<string, string>)
    requires PlayersKey in p <==> PlayersKey in q
    requires PlayersKey in p ==> p[PlayersKey] == q[PlayersKey]
    ensures PlayersFrom(codec, p) == PlayersFrom(codec, q)
  {
  }

  /** After a save, the flow reads back exactly the saved list, order and fields included. */
  lemma PlayersFromAfterSave(codec: Codec, preferences: map<string, string>, ps: seq<Player>)
    requires RoundTrip(codec)
    ensures PlayersFrom(codec, preferences[PlayersKey := codec.encode(ps)]) == ps
  {
    assert codec.decode(codec.encode(ps)) == Some(ps);
  }

  /** A stored text that is not JSON gives the default list. */
  lemma NotJsonGivesDefault(preferences: map<string, string>)
    requires PlayersKey in preferences && preferences[PlayersKey] == "not json"
    ensures PlayersFrom(Json, preferences) == DefaultPlayerList()
  {
    JsonCodec.DecodeNotJson();
  }

  /** A stored empty array gives the empty list, not the default: the flow does not bound the size. */
  lemma EmptyArrayGivesEmptyList(preferences: map<string, string>)
    requires PlayersKey in preferences && preferences[PlayersKey] == "[]"
    ensures PlayersFrom(Json, preferences) == []
  {
    JsonCodec.DecodeEmptyArray();
  }

  /**
   * The repository: `preferences` is the whole preference store and
   * `playersFlow` the current value of the flow built over it.
   */
  class PlayerRepository {
    const codec: Codec
    var preferences: map<string, string>
    var playersFlow: seq<Player>

    /** Until the store has been read, the flow holds its initial value, the default list. */
    constructor (codec: Codec, preferences: map<string, string>)
      ensures this.codec == codec && this.preferences == preferences
      ensures playersFlow == DefaultPlayerList()
    {
      this.codec := codec;
      this.preferences := preferences;
      playersFlow := DefaultPlayerList();
    }

    /** The store emits its preferences and the flow takes the list decoded from them. */
    method Emit()
      modifies this`playersFlow
      ensures playersFlow == PlayersFrom(codec, preferences)
    {
      playersFlow := PlayersFrom(codec, preferences);
    }

    /**
     * `savePlayers`: the "players_list" slot now holds the encoded list, no other
     * key changes, and the flow re-emits from the new store.
     */
    method SavePlayers(players: seq<Player>)
      modifies this
      ensures preferences == old(preferences)[PlayersKey := codec.encode(players)]
      ensures playersFlow == PlayersFrom(codec, preferences)
      ensures RoundTrip(codec) ==> playersFlow == players
    {
      preferences := preferences[PlayersKey := codec.encode(players)];
      playersFlow := PlayersFrom(codec, preferences);
      if RoundTrip(codec) {
        PlayersFromAfterSave(codec, old(preferences), players);
      }
    }
  }

  // ------------------------------------------- the edition in MainActivity.kt

  /** The exception the older edition lets escape from the flow. */
  datatype Failure = SerializationFailure

  /** The older edition's flow: the default list only for an absent slot; a bad text throws. */
  function LegacyPlayersFrom(codec: Codec, preferences: map<string, string>): (r: Result<seq<Player>, Failure>)
    ensures r.Err? <==> PlayersKey in preferences && codec.decode(preferences[PlayersKey]).None?
    ensures r.Ok? && PlayersKey !in preferences ==> r.value == DefaultPlayerList()
  {
    if PlayersKey in preferences then
      match codec.decode(preferences[PlayersKey])
      case Some(ps) => Ok(ps)
      case None => Err(SerializationFailure)
    else Ok(DefaultPlayerList())
  }

  /**
   * The two editions agree whenever the older one yields a list, and the older
   * one fails exactly when the slot holds a text that does not decode.
   */
  lemma LegacyDiffersOnlyOnBadText(codec: Codec, preferences: map<string, string>)
    ensures LegacyPlayersFrom(codec, preferences).Ok?
      ==> LegacyPlayersFrom(codec, preferences).value == PlayersFrom(codec, preferences)
    ensures LegacyPlayersFrom(codec, preferences).Err?
      <==> PlayersKey in preferences && codec.decode(preferences[PlayersKey]).None?
  {
  }

  /** On the text "not json" the older edition throws where the newer one yields the default list. */
  lemma LegacyThrowsOnNotJson()
    ensures LegacyPlayersFrom(Json, map[PlayersKey := "not json"]).Err?
    ensures PlayersFrom(Json, map[PlayersKey := "not json"]) == DefaultPlayerList()
  {
    JsonCodec.DecodeNotJson();
  }
}
