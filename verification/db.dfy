/**
  The persistence layer as an immutable store. Every `db.session.commit()`
  of a request is one `Write`; a request's effect is the list of writes it
  committed, in order, and the store it leaves is those writes replayed.
*/
module Db {
  import opened Base
  import opened Errors
  import opened Models

  datatype Store = Store(
    users: seq<User>,
    conversations: seq<Conversation>,
    messages: seq<Message>,
    saved: seq<SavedItem>,
    nextSavedId: nat,
    searches: seq<SearchedItem>)

  /** One committed change: a record added, changed or removed. */
  datatype Write =
    | PutUser(uid: nat, user: User)
    | AddUser(user: User)
    | AddConversation(conversation: Conversation)
    | AddMessage(message: Message)
    | AddSaved(item: SavedItem)
    | RemoveSaved(id: nat)
    | AddSearch(search: SearchedItem)

  /** The saved items other than the one with id `id`. */
  function Without(items: seq<SavedItem>, id: nat): (r: seq<SavedItem>)
    ensures |r| <= |items|
    ensures forall i :: 0 <= i < |r| ==> r[i].id != id
  {
    if |items| == 0 then []
    else if items[0].id == id then Without(items[1..], id)
    else [items[0]] + Without(items[1..], id)
  }

  /** Exactly the items with another id remain. */
  lemma {:induction false} WithoutMembers(items: seq<SavedItem>, id: nat)
    ensures forall it :: it in Without(items, id) <==> it in items && it.id != id
  {
    if |items| > 0 {
      WithoutMembers(items[1..], id);
      assert forall it :: it in items <==> it == items[0] || it in items[1..];
    }
  }

  /** The store after one write. A saved item gets its id from the
      autoincrement counter, whatever id the write names. */
  function Apply(st: Store, w: Write): Store {
    match w
    case PutUser(uid, u) =>
      if uid < |st.users| then st.(users := st.users[uid := u]) else st
    case AddUser(u) => st.(users := st.users + [u])
    case AddConversation(c) => st.(conversations := st.conversations + [c])
    case AddMessage(m) => st.(messages := st.messages + [m])
    case AddSaved(it) =>
      st.(saved := st.saved + [it.(id := st.nextSavedId)], nextSavedId := st.nextSavedId + 1)
    case RemoveSaved(id) => st.(saved := Without(st.saved, id))
    case AddSearch(s) => st.(searches := st.searches + [s])
  }

  /** The store after a list of writes, in order. */
  function ApplyAll(st: Store, ws: seq<Write>): Store
    decreases |ws|
  {
    if |ws| == 0 then st else Apply(ApplyAll(st, ws[..|ws| - 1]), ws[|ws| - 1])
  }

  /** What a request has done so far: the store it started from, the store
      it has reached, and the writes it committed on the way. */
  datatype Trace = Trace(before: Store, after: Store, writes: seq<Write>) {
    /** The store reached is the writes replayed on the store started from. */
    predicate Valid() {
      after == ApplyAll(before, writes)
    }
  }

  /** A request that has written nothing yet. */
  function Begin(st: Store): (t: Trace)
    ensures t.Valid()
    ensures t.before == st && t.after == st && t.writes == []
  {
    Trace(st, st, [])
  }

  /** `db.session.commit()` of one write. */
  function Commit(t: Trace, w: Write): (t': Trace)
    requires t.Valid()
    ensures t'.Valid()
    ensures t'.before == t.before
    ensures t'.after == Apply(t.after, w)
    ensures t'.writes == t.writes + [w]
  {
    var ws := t.writes + [w];
    assert ws[..|ws| - 1] == t.writes;
    Trace(t.before, Apply(t.after, w), ws)
  }

  /** A route's outcome: its result and what it committed. */
  datatype Step<+T> = Step(result: Result<T>, trace: Trace)

  /** The outcome of a route that calls the completion service: also what it
      sent, if it got as far as sending. */
  datatype Exchange<+T, +Q> = Exchange(result: Result<T>, trace: Trace, asked: Option<Q>)
}
