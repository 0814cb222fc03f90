/**
 * The favorite router: a user's bookmarks on items, kept as the set of
 * (user, item) pairs in the favorites table.
 */
module FavoriteRouter {
  import opened Schema

  type Favorites = set<(UserId, ItemId)>

  /** The table after `toggle` (lines 11-43): the pair is removed when present and inserted when absent. */
  function Toggled(favs: Favorites, userId: UserId, itemId: ItemId): (r: Favorites)
    ensures (userId, itemId) in r <==> (userId, itemId) !in favs
    ensures forall p :: p != (userId, itemId) ==> (p in r <==> p in favs)
  {
    if (userId, itemId) in favs then favs - {(userId, itemId)} else favs + {(userId, itemId)}
  }

  /** `getByUser` (lines 45-56): the items the user has favorited. */
  function GetByUser(favs: Favorites, userId: UserId): (r: set<ItemId>)
    ensures forall i :: i in r <==> (userId, i) in favs
  {
    set p | p in favs && p.0 == userId :: p.1
  }

  /** `isFavorited` (lines 58-71): whether the user's favorites hold the item. */
  function IsFavorited(favs: Favorites, userId: UserId, itemId: ItemId): (b: bool)
    ensures b <==> itemId in GetByUser(favs, userId)
  {
    (userId, itemId) in favs
  }

  /** Toggling twice restores the table. */
  lemma ToggleTwice(favs: Favorites, userId: UserId, itemId: ItemId)
    ensures Toggled(Toggled(favs, userId, itemId), userId, itemId) == favs
  {
  }

  /** A toggle flips what `isFavorited` reports for that pair and nothing else. */
  lemma ToggleFlips(favs: Favorites, userId: UserId, itemId: ItemId, u: UserId, i: ItemId)
    ensures IsFavorited(Toggled(favs, userId, itemId), u, i) ==
            if (u, i) == (userId, itemId) then !IsFavorited(favs, u, i) else IsFavorited(favs, u, i)
  {
  }

  /** A toggle changes the toggling user's list by that one item and leaves every other user's list alone. */
  lemma ToggleChangesOneList(favs: Favorites, userId: UserId, itemId: ItemId, u: UserId)
    ensures u != userId ==> GetByUser(Toggled(favs, userId, itemId), u) == GetByUser(favs, u)
    ensures u == userId && itemId in GetByUser(favs, u) ==>
              GetByUser(Toggled(favs, userId, itemId), u) == GetByUser(favs, u) - {itemId}
    ensures u == userId && itemId !in GetByUser(favs, u) ==>
              GetByUser(Toggled(favs, userId, itemId), u) == GetByUser(favs, u) + {itemId}
  {
  }

  class FavoriteTable {
    var favorites: Favorites

    constructor ()
      ensures favorites == {}
    {
      favorites := {};
    }

    /** `toggle`: flips the pair and reports whether the item is now a favorite. */
    method Toggle(userId: UserId, itemId: ItemId) returns (isFavorited: bool)
      modifies this
      ensures favorites == Toggled(old(favorites), userId, itemId)
      ensures isFavorited <==> (userId, itemId) !in old(favorites)
      ensures isFavorited == IsFavorited(favorites, userId, itemId)
    {
      var existing := (userId, itemId) in favorites;
      if existing {
        favorites := favorites - {(userId, itemId)};
        return false;
      } else {
        favorites := favorites + {(userId, itemId)};
        return true;
      }
    }
  }
}
