/**
  The favourites store: each user's saved facts and quotes, at most one per
  topic, listed newest first and deleted by their owner only.
*/
module Favourites {
  import opened Base
  import opened Errors
  import opened Models
  import opened Db
  import opened Schemas

  // ----- invariants of the saved-item table -----

  /** Ids follow insertion order and stay below the autoincrement counter. */
  predicate IdsAscending(st: Store) {
    && (forall i, j :: 0 <= i < j < |st.saved| ==> st.saved[i].id < st.saved[j].id)
    && (forall i :: 0 <= i < |st.saved| ==> st.saved[i].id < st.nextSavedId)
  }

  /** No user has saved two items under one topic. */
  predicate TopicsUnique(st: Store) {
    forall a, b :: a in st.saved && b in st.saved && a.userId == b.userId && a.topic == b.topic ==> a == b
  }

  /** Whether user `me` already has an item saved under `topic`. */
  predicate HasTopic(saved: seq<SavedItem>, me: nat, topic: string) {
    exists i :: 0 <= i < |saved| && saved[i].userId == me && saved[i].topic == topic
  }

  /** The item with id `id`, if any. */
  function Find(saved: seq<SavedItem>, id: nat): (r: Option<SavedItem>)
    ensures r.None? <==> forall it :: it in saved ==> it.id != id
    ensures r.Some? ==> r.value in saved && r.value.id == id
  {
    if |saved| == 0 then None
    else if saved[0].id == id then Some(saved[0])
    else Find(saved[1..], id)
  }

  // ----- add_favourite -----

  /** The success body of `add_favourite`. */
  datatype Added = Added(message: string, favourite: SavedItemView)

  /** The item `add_favourite` stores for `me`, before the counter gives it an id. */
  function NewItem(me: nat, data: SaveData): SavedItem {
    SavedItem(0, me, data.category, data.content, data.author, data.topic)
  }

  /** `add_favourite` for user `me`: refused when `me` already saved
      something under the same topic, whatever its category or content. */
  function AddFavourite(st: Store, me: nat, raw: SaveRequest): (x: Step<Added>)
    ensures x.trace.Valid() && x.trace.before == st
    ensures x.result.Err? ==> x.trace.writes == [] && x.trace.after == st
    ensures LoadSave(raw).Err? ==> x.result == Err(LoadSave(raw).failure)
    ensures LoadSave(raw).Ok? && HasTopic(st.saved, me, raw.topic.value) ==>
      x.result == Throw(Conflict, "Item already saved")
    ensures x.result.Ok? <==> LoadSave(raw).Ok? && !HasTopic(st.saved, me, raw.topic.value)
    ensures x.result.Ok? ==>
      var stored := SavedItem(st.nextSavedId, me, raw.category.value, raw.content.value, raw.author, raw.topic.value);
      && x.trace.writes == [AddSaved(NewItem(me, LoadSave(raw).value))]
      && x.trace.after == st.(saved := st.saved + [stored], nextSavedId := st.nextSavedId + 1)
      && x.result.value == Added("Favourite added successfully", ShowSaved(stored))
  {
    match LoadSave(raw)
    case Err(failure) => Step(Err(failure), Begin(st))
    case Ok(data) =>
      if HasTopic(st.saved, me, data.topic) then
        Step(Throw(Conflict, "Item already saved"), Begin(st))
      else
        var t := Commit(Begin(st), AddSaved(NewItem(me, data)));
        Step(Ok(Added("Favourite added successfully", ShowSaved(t.after.saved[|st.saved|]))), t)
  }

  // ----- get_favourites -----

  /** The `category` query argument: absent or empty means no filter
      (Python truthiness); anything else must be "fact" or "quote". */
  function CategoryFilter(category: Option<string>): (r: Result<Option<string>>)
    ensures r.Ok? <==> category.None? || category.value == "" || category.value in {"fact", "quote"}
    ensures r.Ok? ==> (r.value.None? <==> category.None? || category.value == "")
    ensures r.Ok? && r.value.Some? ==> r.value == category
    ensures r.Err? ==> r == Throw(BadRequest, "Category must be \"fact\" or \"quote\"")
  {
    if category.None? || category.value == "" then Ok(None)
    else if category.value !in {"fact", "quote"} then Throw(BadRequest, "Category must be \"fact\" or \"quote\"")
    else Ok(category)
  }

  /** Whether a stored item is `me`'s and passes the filter. */
  predicate Listed(it: SavedItem, me: nat, filter: Option<string>) {
    it.userId == me && (filter.None? || it.category == filter.value)
  }

  /** The items `Listed` for `me`, newest first. */
  function NewestFirst(saved: seq<SavedItem>, me: nat, filter: Option<string>): (r: seq<SavedItem>)
    ensures |r| <= |saved|
    ensures forall i :: 0 <= i < |r| ==> Listed(r[i], me, filter)
  {
    if |saved| == 0 then []
    else NewestFirst(saved[1..], me, filter) + (if Listed(saved[0], me, filter) then [saved[0]] else [])
  }

  /** The list holds exactly the listed items. */
  lemma {:induction false} NewestFirstMembers(saved: seq<SavedItem>, me: nat, filter: Option<string>)
    ensures forall it :: it in NewestFirst(saved, me, filter) <==> it in saved && Listed(it, me, filter)
  {
    if |saved| > 0 {
      NewestFirstMembers(saved[1..], me, filter);
      assert forall it :: it in saved <==> it == saved[0] || it in saved[1..];
    }
  }

  /** With ids in insertion order, the list runs from the newest id down. */
  lemma {:induction false} NewestFirstOrder(saved: seq<SavedItem>, me: nat, filter: Option<string>)
    ensures (forall i, j :: 0 <= i < j < |saved| ==> saved[i].id < saved[j].id) ==>
      forall i, j :: 0 <= i < j < |NewestFirst(saved, me, filter)| ==>
        NewestFirst(saved, me, filter)[i].id > NewestFirst(saved, me, filter)[j].id
  {
    if |saved| > 0 && forall i, j :: 0 <= i < j < |saved| ==> saved[i].id < saved[j].id {
      var tail := saved[1..];
      var rest := NewestFirst(tail, me, filter);
      assert forall i, j :: 0 <= i < j < |tail| ==> tail[i].id < tail[j].id by {
        forall i, j | 0 <= i < j < |tail| ensures tail[i].id < tail[j].id {
          assert tail[i] == saved[i + 1] && tail[j] == saved[j + 1];
        }
      }
      NewestFirstOrder(tail, me, filter);
      if Listed(saved[0], me, filter) {
        NewestFirstMembers(tail, me, filter);
        forall it | it in rest ensures it.id > saved[0].id {
          var k :| 0 <= k < |tail| && tail[k] == it;
          assert saved[k + 1] == it;
        }
        AppendOlder(rest, saved[0]);
      }
    }
  }

  /** An item older than every item of a newest-first list extends it. */
  lemma AppendOlder(r: seq<SavedItem>, older: SavedItem)
    requires forall i, j :: 0 <= i < j < |r| ==> r[i].id > r[j].id
    requires forall it :: it in r ==> it.id > older.id
    ensures forall i, j :: 0 <= i < j < |r + [older]| ==> (r + [older])[i].id > (r + [older])[j].id
  {
    forall i, j | 0 <= i < j < |r + [older]| ensures (r + [older])[i].id > (r + [older])[j].id {
      assert (r + [older])[i] == r[i] && r[i] in r;
    }
  }

  /** The stored item of user `me` that view `v` shows: a view leaves out
      only the owner. */
  function Owned(v: SavedItemView, me: nat): (it: SavedItem)
    ensures it.userId == me && ShowSaved(it) == v
  {
    SavedItem(v.id, me, v.category, v.content, v.author, v.topic)
  }

  /** Views of the items, in order. */
  function ShowAll(items: seq<SavedItem>): (r: seq<SavedItemView>)
    ensures |r| == |items|
    ensures forall i :: 0 <= i < |items| ==> r[i] == ShowSaved(items[i])
  {
    seq(|items|, i requires 0 <= i < |items| => ShowSaved(items[i]))
  }

  /** For items all owned by `me`, a view is listed exactly when the item it
      shows is. */
  lemma ShowAllMembers(items: seq<SavedItem>, me: nat)
    requires forall i :: 0 <= i < |items| ==> items[i].userId == me
    ensures forall v :: v in ShowAll(items) <==> Owned(v, me) in items
  {
    var r := ShowAll(items);
    forall v ensures v in r <==> Owned(v, me) in items {
      if v in r {
        var k :| 0 <= k < |r| && r[k] == v;
        assert Owned(v, me) == items[k];
      }
      if Owned(v, me) in items {
        var k :| 0 <= k < |items| && items[k] == Owned(v, me);
        assert r[k] == v;
      }
    }
  }

  /** The success body of `get_favourites`. */
  datatype Listing = Listing(favourites: seq<SavedItemView>, count: int)

  /** `get_favourites` for user `me`. */
  function GetFavourites(st: Store, me: nat, category: Option<string>): (r: Result<Listing>)
    ensures r.Err? <==> CategoryFilter(category).Err?
    ensures r.Err? ==> r == Throw(BadRequest, "Category must be \"fact\" or \"quote\"")
    ensures r.Ok? ==> r.value.count == |r.value.favourites|
    // exactly the caller's items passing the filter
    ensures r.Ok? ==> forall v :: v in r.value.favourites <==>
      Owned(v, me) in st.saved && Listed(Owned(v, me), me, CategoryFilter(category).value)
    // newest first
    ensures r.Ok? && IdsAscending(st) ==> forall i, j :: 0 <= i < j < |r.value.favourites| ==>
      r.value.favourites[i].id > r.value.favourites[j].id
  {
    match CategoryFilter(category)
    case Err(failure) => Err(failure)
    case Ok(filter) =>
      var items := NewestFirst(st.saved, me, filter);
      NewestFirstMembers(st.saved, me, filter);
      NewestFirstOrder(st.saved, me, filter);
      ShowAllMembers(items, me);
      var shown := ShowAll(items);
      Ok(Listing(shown, |shown|))
  }

  // ----- delete_favourite -----

  /** `delete_favourite` of item `id` by user `me`: a missing item first,
      then someone else's. */
  function DeleteFavourite(st: Store, me: nat, id: nat): (x: Step<string>)
    ensures x.trace.Valid() && x.trace.before == st
    ensures x.result.Err? ==> x.trace.writes == [] && x.trace.after == st
    ensures Find(st.saved, id).None? ==> x.result == Throw(NotFound, "Favourite not found")
    ensures Find(st.saved, id).Some? && Find(st.saved, id).value.userId != me ==>
      x.result == Throw(Forbidden, "Not your favourite")
    ensures x.result.Ok? <==> Find(st.saved, id).Some? && Find(st.saved, id).value.userId == me
    ensures x.result.Ok? ==>
      && x.result.value == "Removed from favourites"
      && x.trace.writes == [RemoveSaved(id)]
      && x.trace.after == st.(saved := Without(st.saved, id))
      && (forall it :: it in x.trace.after.saved <==> it in st.saved && it.id != id)
  {
    match Find(st.saved, id)
    case None => Step(Throw(NotFound, "Favourite not found"), Begin(st))
    case Some(item) =>
      if item.userId != me then Step(Throw(Forbidden, "Not your favourite"), Begin(st))
      else
        WithoutMembers(st.saved, id);
        Step(Ok("Removed from favourites"), Commit(Begin(st), RemoveSaved(id)))
  }

  // ----- properties -----

  /** Removing an id keeps the rest in order. */
  lemma {:induction false} WithoutKeepsOrder(items: seq<SavedItem>, id: nat)
    requires forall i, j :: 0 <= i < j < |items| ==> items[i].id < items[j].id
    ensures forall i, j :: 0 <= i < j < |Without(items, id)| ==> Without(items, id)[i].id < Without(items, id)[j].id
  {
    if |items| > 0 {
      var tail := items[1..];
      assert forall i, j :: 0 <= i < j < |tail| ==> tail[i].id < tail[j].id by {
        forall i, j | 0 <= i < j < |tail| ensures tail[i].id < tail[j].id {
          assert tail[i] == items[i + 1] && tail[j] == items[j + 1];
        }
      }
      WithoutKeepsOrder(tail, id);
      if items[0].id != id {
        var rest := Without(tail, id);
        WithoutMembers(tail, id);
        forall it | it in rest ensures it.id > items[0].id {
          var k :| 0 <= k < |tail| && tail[k] == it;
          assert items[k + 1] == it;
        }
        PrependOlder(items[0], rest);
      }
    }
  }

  /** An item older than every item of an oldest-first list heads it. */
  lemma PrependOlder(older: SavedItem, r: seq<SavedItem>)
    requires forall i, j :: 0 <= i < j < |r| ==> r[i].id < r[j].id
    requires forall it :: it in r ==> it.id > older.id
    ensures forall i, j :: 0 <= i < j < |[older] + r| ==> ([older] + r)[i].id < ([older] + r)[j].id
  {
    forall i, j | 0 <= i < j < |[older] + r| ensures ([older] + r)[i].id < ([older] + r)[j].id {
      assert ([older] + r)[j] == r[j - 1] && r[j - 1] in r;
      if i > 0 {
        assert ([older] + r)[i] == r[i - 1];
      }
    }
  }

  /** With distinct ids, removing an id that is present drops exactly one item. */
  lemma {:induction false} WithoutDropsOne(items: seq<SavedItem>, id: nat)
    requires forall i, j :: 0 <= i < j < |items| ==> items[i].id < items[j].id
    requires exists it :: it in items && it.id == id
    ensures |Without(items, id)| == |items| - 1
  {
    var tail := items[1..];
    assert forall i, j :: 0 <= i < j < |tail| ==> tail[i].id < tail[j].id by {
      forall i, j | 0 <= i < j < |tail| ensures tail[i].id < tail[j].id {
        assert tail[i] == items[i + 1] && tail[j] == items[j + 1];
      }
    }
    if items[0].id == id {
      forall it | it in tail ensures it.id != id {
        var k :| 0 <= k < |tail| && tail[k] == it;
        assert items[k + 1] == it;
      }
      WithoutAbsent(tail, id);
    } else {
      var it :| it in items && it.id == id;
      assert it in tail;
      WithoutDropsOne(tail, id);
    }
  }

  /** Removing an absent id changes nothing. */
  lemma {:induction false} WithoutAbsent(items: seq<SavedItem>, id: nat)
    requires forall it :: it in items ==> it.id != id
    ensures Without(items, id) == items
  {
    if |items| > 0 {
      assert forall it :: it in items[1..] ==> it in items;
      WithoutAbsent(items[1..], id);
    }
  }

  /** `add_favourite` keeps ids ordered and topics unique per user. */
  lemma AddKeepsInvariants(st: Store, me: nat, raw: SaveRequest)
    requires IdsAscending(st) && TopicsUnique(st)
    ensures var after := AddFavourite(st, me, raw).trace.after;
      IdsAscending(after) && TopicsUnique(after)
  {
    var x := AddFavourite(st, me, raw);
    if x.result.Ok? {
      var stored := x.trace.after.saved[|st.saved|];
      forall a | a in st.saved && a.userId == me ensures a.topic != stored.topic {
        var k :| 0 <= k < |st.saved| && st.saved[k] == a;
        assert !(st.saved[k].userId == me && st.saved[k].topic == raw.topic.value);
      }
    }
  }

  /** Removing an id from the saved-item table keeps both invariants. */
  lemma WithoutKeepsInvariants(st: Store, id: nat)
    requires IdsAscending(st) && TopicsUnique(st)
    ensures IdsAscending(st.(saved := Without(st.saved, id)))
    ensures TopicsUnique(st.(saved := Without(st.saved, id)))
  {
    var r := Without(st.saved, id);
    WithoutKeepsOrder(st.saved, id);
    WithoutMembers(st.saved, id);
    forall i | 0 <= i < |r| ensures r[i].id < st.nextSavedId {
      assert r[i] in r;
    }
  }

  /** `delete_favourite` keeps ids ordered and topics unique per user. */
  lemma DeleteKeepsInvariants(st: Store, me: nat, id: nat)
    requires IdsAscending(st) && TopicsUnique(st)
    ensures var after := DeleteFavourite(st, me, id).trace.after;
      IdsAscending(after) && TopicsUnique(after)
  {
    WithoutKeepsInvariants(st, id);
  }

  /** A successful delete removes exactly one item, and deleting the same
      id again finds nothing. */
  lemma DeleteIsFinal(st: Store, me: nat, id: nat, again: nat)
    requires IdsAscending(st)
    requires DeleteFavourite(st, me, id).result.Ok?
    ensures var after := DeleteFavourite(st, me, id).trace.after;
      && |after.saved| == |st.saved| - 1
      && DeleteFavourite(after, again, id).result == Throw(NotFound, "Favourite not found")
  {
    WithoutDropsOne(st.saved, id);
    WithoutMembers(st.saved, id);
  }

  /** Appending an item puts it at the head of the newest-first list when
      it is listed. */
  lemma {:induction false} NewestFirstAppend(saved: seq<SavedItem>, it: SavedItem, me: nat, filter: Option<string>)
    ensures NewestFirst(saved + [it], me, filter)
            == (if Listed(it, me, filter) then [it] else []) + NewestFirst(saved, me, filter)
  {
    if |saved| == 0 {
      assert saved + [it] == [it];
      assert [it][1..] == [];
    } else {
      assert (saved + [it])[1..] == saved[1..] + [it];
      NewestFirstAppend(saved[1..], it, me, filter);
    }
  }

  /** A new favourite heads its owner's unfiltered list and the list of its
      category. */
  lemma AddedHeadsList(st: Store, me: nat, raw: SaveRequest, filter: Option<string>)
    requires AddFavourite(st, me, raw).result.Ok?
    requires filter.None? || filter == raw.category
    ensures var x := AddFavourite(st, me, raw);
      var listed := GetFavourites(x.trace.after, me, filter);
      listed.Ok? && |listed.value.favourites| > 0 && listed.value.favourites[0] == x.result.value.favourite
  {
    var x := AddFavourite(st, me, raw);
    var stored := x.trace.after.saved[|st.saved|];
    assert x.trace.after.saved == st.saved + [stored];
    NewestFirstAppend(st.saved, stored, me, CategoryFilter(filter).value);
  }

  /** Stored items fit their columns as long as the request's topic and
      author do: the request schema bounds neither. */
  lemma AddKeepsItemsFitting(st: Store, me: nat, raw: SaveRequest)
    requires forall i :: 0 <= i < |st.saved| ==> SavedItemFits(st.saved[i])
    requires raw.topic.Some? ==> |raw.topic.value| <= 200
    requires raw.author.Some? ==> |raw.author.value| <= 200
    ensures var after := AddFavourite(st, me, raw).trace.after;
      forall i :: 0 <= i < |after.saved| ==> SavedItemFits(after.saved[i])
  {
  }

  /** The request schema lets through a topic longer than the 200
      characters its column holds. */
  lemma OverlongTopicAccepted(st: Store, me: nat)
    requires forall i :: 0 <= i < |st.saved| ==> st.saved[i].userId != me
    ensures var raw := SaveRequest(Some("fact"), Some("x"), None, Some(seq(201, _ => 'a')));
      && AddFavourite(st, me, raw).result.Ok?
      && !SavedItemFits(AddFavourite(st, me, raw).trace.after.saved[|st.saved|])
  {
    var topic: string := seq(201, _ => 'a');
    assert !HasTopic(st.saved, me, topic);
  }
}
