/**
 * The favourites list kept by the favourites context: products in the order
 * they were added, at most one entry per id when only these operations are
 * used.
 */
module Favorites {

  datatype Favorite = Favorite(id: string, name: string, price: string, image: string, slug: string)

  /** `isFavorite`: some entry carries this id. */
  predicate IsFavorite(favs: seq<Favorite>, id: string) {
    exists i :: 0 <= i < |favs| && favs[i].id == id
  }

  /** No two entries share an id. */
  predicate NoDuplicates(favs: seq<Favorite>) {
    forall i, j :: 0 <= i < j < |favs| ==> favs[i].id != favs[j].id
  }

  /** `addToFavorites`: an id already present leaves the list as it is; a new one is appended. */
  function Add(favs: seq<Favorite>, item: Favorite): (r: seq<Favorite>)
    ensures IsFavorite(favs, item.id) ==> r == favs
    ensures !IsFavorite(favs, item.id) ==> r == favs + [item]
    ensures IsFavorite(r, item.id)
  {
    if IsFavorite(favs, item.id) then favs
    else
      assert (favs + [item])[|favs|] == item;
      favs + [item]
  }

  /** `removeFromFavorites`: every entry with this id is dropped. */
  function Remove(favs: seq<Favorite>, id: string): (r: seq<Favorite>)
    ensures !IsFavorite(r, id)
    ensures forall x :: x in r <==> x in favs && x.id != id
    ensures |r| <= |favs|
  {
    if |favs| == 0 then []
    else if favs[0].id == id then Remove(favs[1..], id)
    else
      assert favs == [favs[0]] + favs[1..];
      [favs[0]] + Remove(favs[1..], id)
  }

  /** `toggleFavorite`: remove when present, add when absent. */
  function Toggle(favs: seq<Favorite>, item: Favorite): (r: seq<Favorite>)
    ensures IsFavorite(r, item.id) <==> !IsFavorite(favs, item.id)
    ensures forall id :: id != item.id ==> (IsFavorite(r, id) <==> IsFavorite(favs, id))
  {
    if IsFavorite(favs, item.id) then
      var r := Remove(favs, item.id);
      assert forall id :: id != item.id && IsFavorite(favs, id) ==> IsFavorite(r, id) by {
        forall id | id != item.id && IsFavorite(favs, id) ensures IsFavorite(r, id) {
          var i :| 0 <= i < |favs| && favs[i].id == id;
          assert favs[i] in r;
          var k :| 0 <= k < |r| && r[k] == favs[i];
        }
      }
      r
    else
      var r := Add(favs, item);
      assert forall id :: IsFavorite(favs, id) ==> IsFavorite(r, id) by {
        forall id | IsFavorite(favs, id) ensures IsFavorite(r, id) {
          var i :| 0 <= i < |favs| && favs[i].id == id;
          assert r[i] == favs[i];
        }
      }
      r
  }

  // ---------------------------------------------------------------------
  // Properties
  // ---------------------------------------------------------------------

  /** Adding twice is adding once. */
  lemma AddIdempotent(favs: seq<Favorite>, item: Favorite)
    ensures Add(Add(favs, item), item) == Add(favs, item)
  {
  }

  /** Removing an id that is not in the list changes nothing. */
  lemma {:induction false} RemoveAbsent(favs: seq<Favorite>, id: string)
    requires !IsFavorite(favs, id)
    ensures Remove(favs, id) == favs
  {
    if |favs| > 0 {
      RemoveAbsent(favs[1..], id);
    }
  }

  /** Toggling an absent item twice gives back the original list exactly. */
  lemma ToggleTwice(favs: seq<Favorite>, item: Favorite)
    requires !IsFavorite(favs, item.id)
    ensures Toggle(Toggle(favs, item), item) == favs
  {
    var once := Toggle(favs, item);
    assert once == favs + [item];
    RemoveAppendLast(favs, item);
  }

  lemma RemoveAppendLast(favs: seq<Favorite>, item: Favorite)
    requires !IsFavorite(favs, item.id)
    ensures Remove(favs + [item], item.id) == favs
  {
    RemoveAppend(favs, [item], item.id);
    RemoveAbsent(favs, item.id);
    assert Remove([item], item.id) == [];
  }

  lemma {:induction false} RemoveAppend(a: seq<Favorite>, b: seq<Favorite>, id: string)
    ensures Remove(a + b, id) == Remove(a, id) + Remove(b, id)
  {
    if |a| == 0 {
      assert a + b == b;
    } else {
      assert (a + b)[1..] == a[1..] + b;
      RemoveAppend(a[1..], b, id);
    }
  }

  /** The list stays free of duplicate ids under add, remove and toggle. */
  lemma AddKeepsNoDuplicates(favs: seq<Favorite>, item: Favorite)
    requires NoDuplicates(favs)
    ensures NoDuplicates(Add(favs, item))
  {
  }

  lemma {:induction false} RemoveKeepsNoDuplicates(favs: seq<Favorite>, id: string)
    requires NoDuplicates(favs)
    ensures NoDuplicates(Remove(favs, id))
  {
    if |favs| > 0 {
      RemoveKeepsNoDuplicates(favs[1..], id);
      if favs[0].id != id {
        var rest := Remove(favs[1..], id);
        var r := [favs[0]] + rest;
        forall i, j | 0 <= i < j < |r| ensures r[i].id != r[j].id {
          if i == 0 {
            assert r[j] in favs[1..];
            var k :| 0 <= k < |favs[1..]| && favs[1..][k] == r[j];
            assert favs[k + 1] == r[j];
          }
        }
      }
    }
  }

  lemma ToggleKeepsNoDuplicates(favs: seq<Favorite>, item: Favorite)
    requires NoDuplicates(favs)
    ensures NoDuplicates(Toggle(favs, item))
  {
    if IsFavorite(favs, item.id) {
      RemoveKeepsNoDuplicates(favs, item.id);
    }
  }
}
