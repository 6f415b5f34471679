/** The roster: the local list of players mirrored from the remote
    `players` table, the write intents the page sends to that table (insert
    from the registration dialog, status change and removal from the admin
    panel), the admin panel's session gate, and the roster page's search.

    The remote table is a `Store` object; each of its answers (a query that
    returns no data, a rejected write and its message) is an input of the
    operation that asks for it. */
module Roster {
  import opened Wrappers
  import Text
  import Filtering
  import Registration

  datatype Status = Pending | Confirmed

  /** A record as the remote table holds it (snake_case columns). The id and
      `registered_at` are assigned by the table. */
  datatype Row = Row(id: string, name: string, email: string, phone: string, category: string,
                     rating_id: Option<string>, status: Status, registered_at: string)

  /** A player as the page holds it; `registeredAt` is the display form of
      the table's instant. */
  datatype Player = Player(id: string, name: string, email: string, phone: string, category: string,
                           ratingId: Option<string>, status: Status, registeredAt: string)

  /** The record the page asks the table to insert. */
  datatype NewRow = NewRow(name: string, email: string, phone: string, category: string,
                           rating_id: string, status: Status)

  /** The page's views. */
  datatype View = Landing | Players

  // ---- Mapping fetched records ----

  /** One element of `data.map(p => ...)`: the columns are copied and
      `rating_id` becomes `ratingId`; `format` is the locale rendering of
      the instant. */
  function ToPlayer(r: Row, format: string -> string): (p: Player)
    ensures p.id == r.id && p.status == r.status && p.ratingId == r.rating_id
    ensures p.registeredAt == format(r.registered_at)
  {
    Player(r.id, r.name, r.email, r.phone, r.category, r.rating_id, r.status, format(r.registered_at))
  }

  /** The whole `data.map(...)`: same length and order, one player per record. */
  function MapRows(rows: seq<Row>, format: string -> string): (players: seq<Player>)
    ensures |players| == |rows|
    ensures forall i :: 0 <= i < |rows| ==>
              && players[i].id == rows[i].id
              && players[i].name == rows[i].name
              && players[i].email == rows[i].email
              && players[i].phone == rows[i].phone
              && players[i].category == rows[i].category
              && players[i].ratingId == rows[i].rating_id
              && players[i].status == rows[i].status
              && players[i].registeredAt == format(rows[i].registered_at)
  {
    if rows == [] then [] else [ToPlayer(rows[0], format)] + MapRows(rows[1..], format)
  }

  // ---- Write intents ----

  /** The insert payload built from the dialog's draft: the fields are copied,
      `ratingId` is sent as `rating_id`, and the status is always pending. */
  function InsertPayload(d: Registration.Draft): (n: NewRow)
    ensures n.status == Pending
  {
    NewRow(d.name, d.email, d.phone, d.category, d.ratingId, Pending)
  }

  /** The draft a payload was built from. */
  function DraftOf(n: NewRow): Registration.Draft
  {
    Registration.Draft(n.name, n.email, n.phone, n.category, n.rating_id)
  }

  /** The payload loses nothing of the draft: every field is sent verbatim. */
  lemma InsertPayloadRoundTrip(d: Registration.Draft)
    ensures DraftOf(InsertPayload(d)) == d
  {
  }

  /** The status the admin toggle sends: confirmed for a pending player,
      pending otherwise. */
  function ToggleTarget(s: Status): (t: Status)
    ensures t != s
  {
    if s == Pending then Confirmed else Pending
  }

  /** Toggling twice gives back the original status. */
  lemma ToggleTwice(s: Status)
    ensures ToggleTarget(ToggleTarget(s)) == s
  {
  }

  // ---- The remote table's effect on its records ----

  /** A record created from an accepted insert. */
  function Created(n: NewRow, id: string, at: string): Row
  {
    Row(id, n.name, n.email, n.phone, n.category, Some(n.rating_id), n.status, at)
  }

  /** `update({ status }).eq('id', id)`: every record with that id gets the
      status; every other record is untouched. */
  function SetStatus(rows: seq<Row>, id: string, status: Status): (r: seq<Row>)
    ensures |r| == |rows|
    ensures forall i :: 0 <= i < |rows| ==>
              r[i] == if rows[i].id == id then rows[i].(status := status) else rows[i]
  {
    if rows == [] then []
    else [if rows[0].id == id then rows[0].(status := status) else rows[0]] + SetStatus(rows[1..], id, status)
  }

  /** `delete().eq('id', id)`: the records with that id go, the others stay
      in order. */
  function DeleteId(rows: seq<Row>, id: string): (r: seq<Row>)
    ensures forall x :: x in r <==> x in rows && x.id != id
    ensures Filtering.IsSubsequence(r, rows)
    ensures forall x :: multiset(r)[x] == if x.id != id then multiset(rows)[x] else 0
  {
    var keep := (x: Row) => x.id != id;
    Filtering.FilterIsSubsequence(rows, keep);
    forall x ensures multiset(Filtering.Filter(rows, keep))[x] == if keep(x) then multiset(rows)[x] else 0 {
      Filtering.FilterMultiplicity(rows, keep, x);
    }
    Filtering.Filter(rows, keep)
  }

  /** The remote `players` table, listed newest first. */
  class Store {
    var rows: seq<Row>

    constructor (initial: seq<Row>)
      ensures rows == initial
    {
      rows := initial;
    }

    /** `select('*').order('registered_at', { ascending: false })`: the
        records, or no data when the query fails. */
    method Query(succeeds: bool) returns (data: Option<seq<Row>>)
      ensures succeeds ==> data == Some(rows)
      ensures !succeeds ==> data == None
    {
      data := if succeeds then Some(rows) else None;
    }

    /** An insert that the table accepts (no rejection message) adds the new
        record in front, as the newest; a rejected one changes nothing. */
    method Insert(n: NewRow, id: string, at: string, rejection: Option<string>) returns (error: Option<string>)
      modifies this
      ensures error == rejection
      ensures rows == if rejection.None? then [Created(n, id, at)] + old(rows) else old(rows)
    {
      error := rejection;
      if rejection.None? {
        rows := [Created(n, id, at)] + rows;
      }
    }

    method Update(id: string, status: Status, rejection: Option<string>) returns (error: Option<string>)
      modifies this
      ensures error == rejection
      ensures rows == if rejection.None? then SetStatus(old(rows), id, status) else old(rows)
    {
      error := rejection;
      if rejection.None? {
        rows := SetStatus(rows, id, status);
      }
    }

    method Delete(id: string, rejection: Option<string>) returns (error: Option<string>)
      modifies this
      ensures error == rejection
      ensures rows == if rejection.None? then DeleteId(old(rows), id) else old(rows)
    {
      error := rejection;
      if rejection.None? {
        rows := DeleteId(rows, id);
      }
    }
  }

  // ---- The page ----

  /** The page's `view` and its local `players` list. The list is replaced
      only as a whole, by a fetch; no write touches it. */
  class App {
    var view: View
    var players: seq<Player>

    constructor ()
      ensures view == Landing && players == []
    {
      view := Landing;
      players := [];
    }

    /** `if (data) setPlayers(mapped)`: data replaces the list by its
        mapping; no data leaves the list as it was. */
    method ApplyFetch(data: Option<seq<Row>>, format: string -> string)
      modifies this`players
      ensures players == if data.Some? then MapRows(data.value, format) else old(players)
    {
      if data.Some? {
        players := MapRows(data.value, format);
      }
    }

    /** `fetchPlayers`: query the table and apply the answer. */
    method FetchPlayers(store: Store, querySucceeds: bool, format: string -> string)
      modifies this`players
      ensures players == if querySucceeds then MapRows(store.rows, format) else old(players)
    {
      var data := store.Query(querySucceeds);
      ApplyFetch(data, format);
    }

    /** The change subscription: any insert, update or delete notified for
        the table triggers a full fetch. */
    method OnPlayersChanged(store: Store, querySucceeds: bool, format: string -> string)
      modifies this`players
      ensures players == if querySucceeds then MapRows(store.rows, format) else old(players)
    {
      FetchPlayers(store, querySucceeds, format);
    }

    /** `handleRegister`, the dialog's `onRegister`: send the insert; on a
        rejection alert its message and stay; otherwise switch to the
        roster view. The local list is not touched either way. */
    method HandleRegister(d: Registration.Draft, store: Store, id: string, at: string,
                          rejection: Option<string>) returns (alert: Option<string>)
      modifies this`view, store
      ensures players == old(players)
      ensures store.rows == if rejection.None? then [Created(InsertPayload(d), id, at)] + old(store.rows)
                            else old(store.rows)
      ensures rejection.Some? ==> alert == Some("Error registering: " + rejection.value) && view == old(view)
      ensures rejection.None? ==> alert == None && view == Players
    {
      var error := store.Insert(InsertPayload(d), id, at, rejection);
      if error.Some? {
        alert := Some("Error registering: " + error.value);
        return;
      }
      alert := None;
      view := Players;
    }

    /** `updatePlayerStatus`: send the update; its outcome is not looked at. */
    method UpdatePlayerStatus(id: string, status: Status, store: Store, rejection: Option<string>)
      modifies store
      ensures store.rows == if rejection.None? then SetStatus(old(store.rows), id, status) else old(store.rows)
    {
      var _ := store.Update(id, status, rejection);
    }

    /** `deletePlayer`: send the delete only after the user confirms. */
    method DeletePlayer(id: string, confirmed: bool, store: Store, rejection: Option<string>)
      modifies store
      ensures store.rows == if confirmed && rejection.None? then DeleteId(old(store.rows), id) else old(store.rows)
    {
      if confirmed {
        var _ := store.Delete(id, rejection);
      }
    }
  }

  /** Notifications may arrive more than once for one change: after one
      successful refetch, a second one, whether it succeeds or fails,
      leaves the list as the mapping of the table's records. */
  method NotifiedTwice(app: App, store: Store, secondSucceeds: bool, format: string -> string)
    modifies app`players
    ensures app.players == MapRows(store.rows, format)
  {
    app.OnPlayersChanged(store, true, format);
    app.OnPlayersChanged(store, secondSucceeds, format);
  }

  /** An accepted registration followed by the notified refetch: the list
      becomes the new pending player in front of the previous records. */
  lemma RegisterThenRefresh(d: Registration.Draft, rows: seq<Row>, id: string, at: string, format: string -> string)
    ensures var players := MapRows([Created(InsertPayload(d), id, at)] + rows, format);
            && |players| == |rows| + 1
            && players[0] == Player(id, d.name, d.email, d.phone, d.category, Some(d.ratingId), Pending, format(at))
            && players[1..] == MapRows(rows, format)
  {
  }

  /** Toggling a pending player whose id is unique confirms that player and
      leaves every other record as it was. */
  lemma ToggleConfirmsOnlyThatPlayer(rows: seq<Row>, k: nat)
    requires k < |rows| && rows[k].status == Pending
    requires forall i :: 0 <= i < |rows| && i != k ==> rows[i].id != rows[k].id
    ensures var r := SetStatus(rows, rows[k].id, ToggleTarget(rows[k].status));
            && r[k] == rows[k].(status := Confirmed)
            && forall i :: 0 <= i < |rows| && i != k ==> r[i] == rows[i]
  {
  }

  // ---- The admin panel ----

  /** The admin panel: the `isOpen` property it is rendered with and its
      `isAuthenticated` flag. The flag is set only from the identity
      provider's session reports; the table and its buttons are rendered
      only while the panel is open and the flag is set. */
  class AdminPanel {
    var isOpen: bool
    var isAuthenticated: bool

    constructor ()
      ensures !isOpen && !isAuthenticated
    {
      isOpen := false;
      isAuthenticated := false;
    }

    /** The owner opens or closes the panel; the flag is kept. */
    method SetOpen(open: bool)
      modifies this`isOpen
      ensures isOpen == open
    {
      isOpen := open;
    }

    /** `getSession` on mount and every `onAuthStateChange` report set the
        flag to whether a session is present. */
    method ObserveSession(sessionPresent: bool)
      modifies this`isAuthenticated
      ensures isAuthenticated == sessionPresent
    {
      isAuthenticated := sessionPresent;
    }

    /** `handleLogin`: a rejected sign-in is alerted. An accepted one is
        reported later through `ObserveSession`; the flag does not change here. */
    method Login(rejection: Option<string>) returns (alert: Option<string>)
      ensures alert == if rejection.Some? then Some("Login failed: " + rejection.value) else None
    {
      alert := if rejection.Some? then Some("Login failed: " + rejection.value) else None;
    }

    /** The rows of the player table: all players while the panel is open
        and authenticated; none while it is closed (nothing is rendered) or
        unauthenticated (the login form is shown instead). */
    function TableRows(players: seq<Player>): (r: seq<Player>)
      reads this
      ensures isOpen && isAuthenticated ==> r == players
      ensures !(isOpen && isAuthenticated) ==> r == []
    {
      if !isOpen then [] else if isAuthenticated then players else []
    }

    /** The toggle button of a listed player: ask for the opposite status. */
    method ToggleStatus(app: App, store: Store, p: Player, rejection: Option<string>)
      requires isOpen && isAuthenticated && p in app.players
      modifies store
      ensures store.rows == if rejection.None? then SetStatus(old(store.rows), p.id, ToggleTarget(p.status))
                            else old(store.rows)
    {
      app.UpdatePlayerStatus(p.id, ToggleTarget(p.status), store, rejection);
    }

    /** The remove button of a listed player: delete after confirmation. */
    method Remove(app: App, store: Store, p: Player, confirmed: bool, rejection: Option<string>)
      requires isOpen && isAuthenticated && p in app.players
      modifies store
      ensures store.rows == if confirmed && rejection.None? then DeleteId(old(store.rows), p.id)
                            else old(store.rows)
    {
      app.DeletePlayer(p.id, confirmed, store, rejection);
    }
  }

  /** A mutation button can be pressed only for a player the table shows, so
      only while the panel is open and a session is present. */
  lemma ButtonsNeedSession(admin: AdminPanel, players: seq<Player>, p: Player)
    requires p in admin.TableRows(players)
    ensures admin.isOpen && admin.isAuthenticated && p in players
  {
  }

  // ---- The roster page's search ----

  /** The lowercased name or the lowercased category contains the
      lowercased search term. */
  predicate RosterMatches(p: Player, term: string): (b: bool)
    ensures term == "" ==> b
  {
    Text.IncludesEmpty(Text.Lower(p.name));
    Text.Includes(Text.Lower(p.name), Text.Lower(term)) ||
    Text.Includes(Text.Lower(p.category), Text.Lower(term))
  }

  /** `filteredPlayers` of the roster page: the matching players, in order. */
  function FilterRoster(players: seq<Player>, term: string): (r: seq<Player>)
    ensures |r| <= |players|
    ensures forall p :: p in r <==> p in players && RosterMatches(p, term)
    ensures Filtering.IsSubsequence(r, players)
    ensures forall p :: multiset(r)[p] == if RosterMatches(p, term) then multiset(players)[p] else 0
  {
    var keep := (p: Player) => RosterMatches(p, term);
    Filtering.FilterIsSubsequence(players, keep);
    forall p ensures multiset(Filtering.Filter(players, keep))[p] == if keep(p) then multiset(players)[p] else 0 {
      Filtering.FilterMultiplicity(players, keep, p);
    }
    Filtering.Filter(players, keep)
  }

  /** An empty search term keeps every player. */
  lemma EmptyRosterSearchKeepsAll(players: seq<Player>)
    ensures FilterRoster(players, "") == players
  {
    var keep := (p: Player) => RosterMatches(p, "");
    Filtering.FilterKeepsAll(players, keep);
  }
}
