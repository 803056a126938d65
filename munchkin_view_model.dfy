/**
 * The view model of ui/MunchkinViewModel.kt: each operation reads the current
 * list from the repository's flow, builds a whole new list from it and hands
 * that to the repository to save. The list transformations are functions; the
 * class ties them to the repository's state.
 */
module ViewModel {
  import opened KotlinInt
  import opened PlayerData
  import opened Repository

  /** The most players a game may have: `addPlayer` does nothing at this size. */
  const MaxPlayers: nat := 6

  /** Ids are pairwise distinct. */
  predicate DistinctIds(ps: seq<Player>) {
    forall i, j :: 0 <= i < j < |ps| ==> ps[i].id != ps[j].id
  }

  /** The invariant the controller is meant to keep: one to six players with distinct ids. */
  predicate ValidPlayerList(ps: seq<Player>) {
    1 <= |ps| <= MaxPlayers && DistinctIds(ps)
  }

  /** `maxOfOrNull { it.id } ?: 0`: the largest id, or 0 for an empty list. */
  function MaxIdOrZero(ps: seq<Player>): (m: Int32)
    ensures forall i :: 0 <= i < |ps| ==> ps[i].id <= m
    ensures ps == [] ==> m == 0
    ensures ps != [] ==> exists i :: 0 <= i < |ps| && ps[i].id == m
  {
    if ps == [] then 0
    else if |ps| == 1 then ps[0].id
    else
      var rest := MaxIdOrZero(ps[1..]);
      if ps[0].id >= rest then ps[0].id else rest
  }

  /** The id `addPlayer` gives a new player: one more than the largest, with `Int` wrap-around. */
  function NewId(ps: seq<Player>): (id: Int32)
    ensures MaxIdOrZero(ps) < MaxValue ==> forall i :: 0 <= i < |ps| ==> ps[i].id < id
    ensures MaxIdOrZero(ps) == MaxValue ==> id == MinValue
  {
    Wrap(MaxIdOrZero(ps) + 1)
  }

  /** The name of the n-th player, "Игрок n". */
  function PlayerName(n: nat): (name: string)
    ensures |name| > 6 && name[..6] == "Игрок " && name[6..] == ToString(n)
  {
    "Игрок " + ToString(n)
  }

  /** The list `addPlayer` saves: one new default player at the end, unless the game is full. */
  function AddedPlayers(ps: seq<Player>): (r: seq<Player>)
    ensures |ps| < MaxPlayers ==> |r| == |ps| + 1 && r[..|ps|] == ps
    ensures |ps| >= MaxPlayers ==> r == ps
  {
    if |ps| < MaxPlayers then
      ps + [Player(NewId(ps), PlayerName(|ps| + 1), cardColorIndex := 0)]
    else ps
  }

  /** The list `resetPlayers` saves. */
  function ResetList(): (ps: seq<Player>)
    ensures ps == DefaultPlayerList()
  {
    [Player(1, "Игрок 1")]
  }

  /** `filter { it.id != id }`: the players whose id differs, in their order. */
  function PlayersWithout(ps: seq<Player>, id: int): (r: seq<Player>)
    ensures |r| <= |ps|
    ensures forall q :: q in r <==> q in ps && q.id != id
  {
    if ps == [] then []
    else (if ps[0].id != id then [ps[0]] else []) + PlayersWithout(ps[1..], id)
  }

  /** The list `deletePlayer` saves: the list without that player's id, unless only one is left. */
  function DeletedPlayers(ps: seq<Player>, player: Player): (r: seq<Player>)
    ensures |ps| <= 1 ==> r == ps
    ensures |ps| > 1 ==> forall q :: q in r <==> q in ps && q.id != player.id
  {
    if |ps| > 1 then PlayersWithout(ps, player.id) else ps
  }

  /** On one player the filter keeps it exactly when its id differs. */
  lemma PlayersWithoutOne(p: Player, id: int)
    ensures PlayersWithout([p], id) == if p.id != id then [p] else []
  {
    assert [p][1..] == [];
  }

  /**
   * The filter works player by player: filtering two lists joined is joining
   * the filtered lists, so the survivors keep their order and their repeats
   * whatever the ids.
   */
  lemma {:induction false} PlayersWithoutAppend(a: seq<Player>, b: seq<Player>, id: int)
    ensures PlayersWithout(a + b, id) == PlayersWithout(a, id) + PlayersWithout(b, id)
  {
    if a == [] {
      assert a + b == b;
    } else {
      assert (a + b)[0] == a[0];
      assert (a + b)[1..] == a[1..] + b;
      PlayersWithoutAppend(a[1..], b, id);
    }
  }

  /** With repeated ids the survivors still come in their order: deleting id 2 from a, b (both id 1), c gives a, b. */
  lemma PlayersWithoutRepeatedIds()
    ensures PlayersWithout([Player(1, "a"), Player(1, "b"), Player(2, "c")], 2) == [Player(1, "a"), Player(1, "b")]
  {
    var a, b, c := Player(1, "a"), Player(1, "b"), Player(2, "c");
    assert [a, b, c] == [a] + [b] + [c];
    PlayersWithoutAppend([a] + [b], [c], 2);
    PlayersWithoutAppend([a], [b], 2);
    PlayersWithoutOne(a, 2);
    PlayersWithoutOne(b, 2);
    PlayersWithoutOne(c, 2);
  }

  /** `map { if (it.id == updated.id) updated else it }`: the list `updatePlayer` saves. */
  function UpdatedPlayers(ps: seq<Player>, updated: Player): (r: seq<Player>)
    ensures |r| == |ps|
    ensures forall i :: 0 <= i < |ps| ==> r[i] == if ps[i].id == updated.id then updated else ps[i]
  {
    if ps == [] then []
    else [if ps[0].id == updated.id then updated else ps[0]] + UpdatedPlayers(ps[1..], updated)
  }

  // ---------------------------------------------------------------- addPlayer

  /** A new id exceeds every current id, and is 1 for an empty list, unless the largest id is `Int.MAX_VALUE`. */
  lemma NewIdIsFresh(ps: seq<Player>)
    requires MaxIdOrZero(ps) < MaxValue
    ensures forall i :: 0 <= i < |ps| ==> ps[i].id < NewId(ps)
    ensures ps == [] ==> NewId(ps) == 1
  {
  }

  /** At `Int.MAX_VALUE` the `+ 1` wraps: the new id is the smallest `Int`, below every current id. */
  lemma NewIdWrapsAtMaxValue(ps: seq<Player>)
    requires MaxIdOrZero(ps) == MaxValue
    ensures NewId(ps) == MinValue
    ensures forall i :: 0 <= i < |ps| ==> NewId(ps) <= ps[i].id
  {
    assert MaxIdOrZero(ps) + 1 - MinValue == Modulus;
    assert Wrap(MaxIdOrZero(ps) + 1) == Modulus % Modulus + MinValue == MinValue;
  }

  /**
   * Below six players, `addPlayer` keeps the current players as they are and
   * appends one player named after the new size, on level 1 with no gear and
   * the first colour; at six or more it changes nothing.
   */
  lemma AddPlayerEffect(ps: seq<Player>)
    ensures |ps| < MaxPlayers ==>
      var r := AddedPlayers(ps);
      && |r| == |ps| + 1 && r[..|ps|] == ps
      && r[|ps|].id == NewId(ps) && r[|ps|].name == PlayerName(|ps| + 1)
      && r[|ps|].level == 1 && r[|ps|].gear == 0 && r[|ps|].cardColorIndex == 0
    ensures |ps| >= MaxPlayers ==> AddedPlayers(ps) == ps
  {
  }

  lemma AddPlayerKeepsValid(ps: seq<Player>)
    requires ValidPlayerList(ps) && MaxIdOrZero(ps) < MaxValue
    ensures ValidPlayerList(AddedPlayers(ps))
  {
    if |ps| < MaxPlayers {
      NewIdIsFresh(ps);
      var r := AddedPlayers(ps);
      forall i, j | 0 <= i < j < |r| ensures r[i].id != r[j].id {
        if j == |ps| {
          assert r[i] == ps[i];
        } else {
          assert r[i] == ps[i] && r[j] == ps[j];
        }
      }
    }
  }

  /** Players numbered by creation: the i-th (from 1) has id i and is named "Игрок i". */
  predicate NumberedByCreation(ps: seq<Player>) {
    forall i :: 0 <= i < |ps| ==> ps[i].id == i + 1 && ps[i].name == PlayerName(i + 1)
  }

  /** Adding to a list numbered by creation keeps it so: the new player gets the next id and name. */
  lemma AddPlayerKeepsNumbering(ps: seq<Player>)
    requires NumberedByCreation(ps) && |ps| < MaxPlayers
    ensures NumberedByCreation(AddedPlayers(ps))
  {
    var m := MaxIdOrZero(ps);
    if ps != [] {
      assert ps[|ps| - 1].id == |ps|;
      assert m == |ps|;
    }
    assert NewId(ps) == |ps| + 1;
    var r := AddedPlayers(ps);
    assert r == ps + [Player(|ps| + 1, PlayerName(|ps| + 1), cardColorIndex := 0)];
    forall i | 0 <= i < |r| ensures r[i].id == i + 1 && r[i].name == PlayerName(i + 1) {
      if i < |ps| {
        assert r[i] == ps[i];
      }
    }
  }

  /**
   * From the default list, five additions give six players with ids 1 to 6
   * named "Игрок 1" to "Игрок 6", and a sixth addition changes nothing.
   */
  lemma SixPlayersScenario()
    ensures var six := AddedPlayers(AddedPlayers(AddedPlayers(AddedPlayers(AddedPlayers(DefaultPlayerList())))));
      |six| == 6 && NumberedByCreation(six) && AddedPlayers(six) == six
  {
    var ps := DefaultPlayerList();
    assert PlayerName(1) == "Игрок 1";
    assert NumberedByCreation(ps);
    AddPlayerKeepsNumbering(ps);
    ps := AddedPlayers(ps);
    AddPlayerKeepsNumbering(ps);
    ps := AddedPlayers(ps);
    AddPlayerKeepsNumbering(ps);
    ps := AddedPlayers(ps);
    AddPlayerKeepsNumbering(ps);
    ps := AddedPlayers(ps);
    AddPlayerKeepsNumbering(ps);
    ps := AddedPlayers(ps);
  }

  // ---------------------------------------------------------------- resetPlayers

  /** The reset list is the repository's default list, so it satisfies the invariant. */
  lemma ResetPlayersIsDefault()
    ensures ResetList() == DefaultPlayerList()
    ensures ValidPlayerList(ResetList())
  {
  }

  // ---------------------------------------------------------------- deletePlayer

  /** Deleting an id nobody has changes nothing. */
  lemma {:induction false} PlayersWithoutAbsent(ps: seq<Player>, id: int)
    requires forall i :: 0 <= i < |ps| ==> ps[i].id != id
    ensures PlayersWithout(ps, id) == ps
  {
    if ps != [] {
      PlayersWithoutAbsent(ps[1..], id);
      assert [ps[0]] + ps[1..] == ps;
    }
  }

  lemma PlayersWithoutHead(ps: seq<Player>, id: int)
    requires ps != []
    ensures PlayersWithout(ps, id) == (if ps[0].id != id then [ps[0]] else []) + PlayersWithout(ps[1..], id)
  {
  }

  /** The players after the first keep distinct ids, none of them the first player's. */
  lemma DistinctTail(ps: seq<Player>)
    requires DistinctIds(ps) && ps != []
    ensures DistinctIds(ps[1..])
    ensures forall i :: 0 <= i < |ps[1..]| ==> ps[1..][i].id != ps[0].id
  {
    var tail := ps[1..];
    forall i, j | 0 <= i < j < |tail| ensures tail[i].id != tail[j].id {
      assert tail[i] == ps[i + 1] && tail[j] == ps[j + 1];
    }
    forall i | 0 <= i < |tail| ensures tail[i].id != ps[0].id {
      assert tail[i] == ps[i + 1];
    }
  }

  /** With distinct ids, deleting the id at position k removes exactly that player and keeps the order of the rest. */
  lemma {:induction false} PlayersWithoutAt(ps: seq<Player>, k: nat)
    requires DistinctIds(ps) && k < |ps|
    ensures PlayersWithout(ps, ps[k].id) == ps[..k] + ps[k + 1..]
  {
    var id := ps[k].id;
    var tail := ps[1..];
    DistinctTail(ps);
    PlayersWithoutHead(ps, id);
    if k == 0 {
      PlayersWithoutAbsent(tail, id);
      assert ps[..0] + ps[1..] == tail;
    } else {
      PlayersWithoutAt(tail, k - 1);
      assert tail[k - 1] == ps[k] && ps[0].id != id;
      SplitAfterHead(ps, k);
    }
  }

  lemma SplitAfterHead(ps: seq<Player>, k: nat)
    requires 0 < k < |ps|
    ensures [ps[0]] + (ps[1..][..k - 1] + ps[1..][k..]) == ps[..k] + ps[k + 1..]
  {
    assert ps[1..][..k - 1] == ps[1..k] && ps[1..][k..] == ps[k + 1..];
    assert [ps[0]] + ps[1..k] == ps[..k];
  }

  lemma RemoveAtKeepsDistinct(ps: seq<Player>, k: nat)
    requires DistinctIds(ps) && k < |ps|
    ensures DistinctIds(ps[..k] + ps[k + 1..])
  {
    var r := ps[..k] + ps[k + 1..];
    forall i, j | 0 <= i < j < |r| ensures r[i].id != r[j].id {
      var i' := if i < k then i else i + 1;
      var j' := if j < k then j else j + 1;
      assert r[i] == ps[i'] && r[j] == ps[j'];
    }
  }

  /** `deletePlayer` leaves at least one player and keeps ids distinct; on one player it changes nothing. */
  lemma DeletePlayerKeepsValid(ps: seq<Player>, player: Player)
    requires ValidPlayerList(ps)
    ensures ValidPlayerList(DeletedPlayers(ps, player))
    ensures |ps| <= 1 ==> DeletedPlayers(ps, player) == ps
  {
    if |ps| > 1 {
      if k :| 0 <= k < |ps| && ps[k].id == player.id {
        PlayersWithoutAt(ps, k);
        RemoveAtKeepsDistinct(ps, k);
      } else {
        PlayersWithoutAbsent(ps, player.id);
      }
    }
  }

  // ---------------------------------------------------------------- updatePlayer

  /** `updatePlayer` keeps every id where it was, so the ids stay distinct and the size is unchanged. */
  lemma UpdatePlayerKeepsValid(ps: seq<Player>, updated: Player)
    requires ValidPlayerList(ps)
    ensures ValidPlayerList(UpdatedPlayers(ps, updated))
  {
    var r := UpdatedPlayers(ps, updated);
    assert forall i :: 0 <= i < |ps| ==> r[i].id == ps[i].id;
  }

  /** When no player has the updated player's id, `updatePlayer` saves the list unchanged. */
  lemma UpdatePlayerAbsent(ps: seq<Player>, updated: Player)
    requires forall i :: 0 <= i < |ps| ==> ps[i].id != updated.id
    ensures UpdatedPlayers(ps, updated) == ps
  {
  }

  /** The updated player is in the new list exactly when some current player had its id. */
  lemma UpdatePlayerLands(ps: seq<Player>, updated: Player)
    ensures updated in UpdatedPlayers(ps, updated) <==> exists i :: 0 <= i < |ps| && ps[i].id == updated.id
  {
    var r := UpdatedPlayers(ps, updated);
    if updated in r {
      var i :| 0 <= i < |r| && r[i] == updated;
      assert ps[i].id == updated.id;
    }
  }

  // ---------------------------------------------------------------- the class

  /** The view model: it has no list of its own and reads the repository's flow. */
  class MunchkinViewModel {
    const repository: PlayerRepository

    constructor (repository: PlayerRepository)
      ensures this.repository == repository
    {
      this.repository := repository;
    }

    /** `playersState`: the repository's flow. */
    function PlayersState(): seq<Player>
      reads repository
    {
      repository.playersFlow
    }

    /** `updatePlayers`: hand the new list to the repository, which writes it and re-emits. */
    method UpdatePlayers(updated: seq<Player>)
      modifies repository
      ensures repository.preferences == old(repository.preferences)[PlayersKey := repository.codec.encode(updated)]
      ensures PlayersState() == PlayersFrom(repository.codec, repository.preferences)
      ensures RoundTrip(repository.codec) ==> PlayersState() == updated
    {
      repository.SavePlayers(updated);
    }

    method AddPlayer()
      modifies repository
      ensures |old(PlayersState())| < MaxPlayers ==>
        repository.preferences == old(repository.preferences)[PlayersKey := repository.codec.encode(AddedPlayers(old(PlayersState())))]
      ensures |old(PlayersState())| >= MaxPlayers ==> unchanged(repository)
      ensures |old(PlayersState())| < MaxPlayers ==> PlayersState() == PlayersFrom(repository.codec, repository.preferences)
      ensures RoundTrip(repository.codec) ==> PlayersState() == AddedPlayers(old(PlayersState()))
      ensures (RoundTrip(repository.codec) && ValidPlayerList(old(PlayersState()))
        && MaxIdOrZero(old(PlayersState())) < MaxValue) ==> ValidPlayerList(PlayersState())
    {
      var currentPlayers := PlayersState();
      if |currentPlayers| < MaxPlayers {
        UpdatePlayers(AddedPlayers(currentPlayers));
      }
      if ValidPlayerList(currentPlayers) && MaxIdOrZero(currentPlayers) < MaxValue {
        AddPlayerKeepsValid(currentPlayers);
      }
    }

    method ResetPlayers()
      modifies repository
      ensures repository.preferences
        == old(repository.preferences)[PlayersKey := repository.codec.encode(ResetList())]
      ensures PlayersState() == PlayersFrom(repository.codec, repository.preferences)
      ensures RoundTrip(repository.codec) ==> PlayersState() == DefaultPlayerList()
    {
      UpdatePlayers(ResetList());
      ResetPlayersIsDefault();
    }

    method DeletePlayer(player: Player)
      modifies repository
      ensures |old(PlayersState())| > 1 ==>
        repository.preferences == old(repository.preferences)[PlayersKey := repository.codec.encode(DeletedPlayers(old(PlayersState()), player))]
      ensures |old(PlayersState())| <= 1 ==> unchanged(repository)
      ensures |old(PlayersState())| > 1 ==> PlayersState() == PlayersFrom(repository.codec, repository.preferences)
      ensures RoundTrip(repository.codec) ==> PlayersState() == DeletedPlayers(old(PlayersState()), player)
      ensures RoundTrip(repository.codec) && ValidPlayerList(old(PlayersState())) ==> ValidPlayerList(PlayersState())
    {
      var currentPlayers := PlayersState();
      if |currentPlayers| > 1 {
        UpdatePlayers(PlayersWithout(currentPlayers, player.id));
      }
      if ValidPlayerList(currentPlayers) {
        DeletePlayerKeepsValid(currentPlayers, player);
      }
    }

    method UpdatePlayer(updated: Player)
      modifies repository
      ensures repository.preferences
        == old(repository.preferences)[PlayersKey := repository.codec.encode(UpdatedPlayers(old(PlayersState()), updated))]
      ensures PlayersState() == PlayersFrom(repository.codec, repository.preferences)
      ensures RoundTrip(repository.codec) ==> PlayersState() == UpdatedPlayers(old(PlayersState()), updated)
      ensures RoundTrip(repository.codec) && ValidPlayerList(old(PlayersState())) ==> ValidPlayerList(PlayersState())
    {
      var currentPlayers := PlayersState();
      UpdatePlayers(UpdatedPlayers(currentPlayers, updated));
      if ValidPlayerList(currentPlayers) {
        UpdatePlayerKeepsValid(currentPlayers, updated);
      }
    }
  }
}
