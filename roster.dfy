/** The `players` table of server.js, keyed by socket id: a player is added
    on connection, its velocity is set by `movePlayer`, and it is deleted on
    disconnection. */
module Roster {
  import Random

  /** A player record. */
  datatype Player = Player(x: real, y: real, dx: real, dy: real, color: string, isWinner: bool)

  /** The colours `getRandomColor` chooses from. */
  const Palette: seq<string> := ["blue", "red", "yellow", "green"]

  /** `getRandomColor`: the palette entry at `floor(u * 4)` for the draw `u`. */
  function RandomColor(u: real): (c: string)
    requires Random.IsDraw(u)
    ensures c in Palette
  {
    Palette[Random.PickIndex(u, |Palette|)]
  }

  /** A newly connected player: at rest at (20, 20), not a winner. */
  function Spawn(color: string): (p: Player)
    ensures p.x == 20.0 && p.y == 20.0 && p.dx == 0.0 && p.dy == 0.0
    ensures p.color == color && !p.isWinner
  {
    Player(20.0, 20.0, 0.0, 0.0, color, false)
  }

  /** The table after `movePlayer` from `id`. */
  function Moved(players: map<string, Player>, id: string, dx: real, dy: real): (r: map<string, Player>)
    ensures r.Keys == players.Keys
    ensures forall k :: k in players && k != id ==> r[k] == players[k]
    ensures id in players ==> r[id] == players[id].(dx := dx, dy := dy)
  {
    if id in players then players[id := players[id].(dx := dx, dy := dy)] else players
  }

  /** The table after `id` disconnects. */
  function Removed(players: map<string, Player>, id: string): (r: map<string, Player>)
    ensures r.Keys == players.Keys - {id}
    ensures forall k :: k in r ==> r[k] == players[k]
  {
    players - {id}
  }

  /** A move from an id that is not in the table creates no entry and
      changes nothing. */
  lemma MoveAbsent(players: map<string, Player>, id: string, dx: real, dy: real)
    requires id !in players
    ensures Moved(players, id, dx, dy) == players
  {
  }

  /** Of two moves from the same id, the later one wins. */
  lemma MoveTwice(players: map<string, Player>, id: string, dx1: real, dy1: real, dx2: real, dy2: real)
    ensures Moved(Moved(players, id, dx1, dy1), id, dx2, dy2) == Moved(players, id, dx2, dy2)
  {
  }

  /** Disconnecting twice is the same as disconnecting once. */
  lemma RemoveIdempotent(players: map<string, Player>, id: string)
    ensures Removed(Removed(players, id), id) == Removed(players, id)
  {
  }

  /** A connection followed by its disconnection leaves the table as it
      was, when the id was new. */
  lemma ConnectThenDisconnect(players: map<string, Player>, id: string, p: Player)
    requires id !in players
    ensures Removed(players[id := p], id) == players
  {
  }

  /** The table of the server. */
  class Players {
    var players: map<string, Player>

    /** `let players = {}`. */
    constructor ()
      ensures players == map[]
    {
      players := map[];
    }

    /** `connection`: the socket `id` gets a fresh player with a colour
        drawn from the palette by `u`. */
    method Connect(id: string, u: real)
      requires Random.IsDraw(u)
      modifies this
      ensures players == old(players)[id := Spawn(RandomColor(u))]
      ensures id in players && players[id].color in Palette
    {
      players := players[id := Spawn(RandomColor(u))];
    }

    /** `movePlayer`: the velocity of the sender's player, if it has one. */
    method MovePlayer(id: string, dx: real, dy: real)
      modifies this
      ensures players == Moved(old(players), id, dx, dy)
    {
      if id in players {
        players := players[id := players[id].(dx := dx, dy := dy)];
      }
    }

    /** `disconnect`: `delete players[id]`. */
    method Disconnect(id: string)
      modifies this
      ensures players == Removed(old(players), id)
    {
      players := players - {id};
    }
  }
}
