/** `CategoryService`: the cached top-spending metric, the category writes
    that invalidate it, and the lower-cased name map. */
module CategoryServices {
  import opened Wrappers
  import opened Entities
  import opened Text
  import opened CacheKeys
  import opened CacheStore
  import opened CategoryQueries
  import opened Coherence

  class CategoryService {
    const store: Store
    const cache: Cache<CachedValue>

    constructor (store: Store, cache: Cache<CachedValue>)
      ensures this.store == store && this.cache == cache
    {
      this.store := store;
      this.cache := cache;
    }

    /** `getTopSpendingCategories($userId, $limit)`: a live entry is
        returned as it is; otherwise the grouped query's rows are stored for
        ten minutes and returned. */
    method GetTopSpendingCategories(userId: int, limit: nat) returns (r: CachedValue)
      modifies cache
      ensures cache.now == old(cache.now)
      ensures cache.Has(TopKey(userId)) && cache.entries[TopKey(userId)].value == r
      ensures old(cache.Has(TopKey(userId))) ==>
        r == old(cache.entries)[TopKey(userId)].value && cache.entries == old(cache.entries)
      ensures !old(cache.Has(TopKey(userId))) ==>
        && r == TopValue(TopSpendingCategories(store.transactions, store.categories, limit))
        && cache.entries == old(cache.entries)[TopKey(userId) := Entry(r, cache.now + TTL)]
      ensures HoldsTop(old(cache.entries), cache.now, userId, store.transactions, store.categories, limit) ==>
        && r == TopValue(TopSpendingCategories(store.transactions, store.categories, limit))
        && HoldsTop(cache.entries, cache.now, userId, store.transactions, store.categories, limit)
    {
      var key := UserKey(userId, TopCategories);
      if cache.Has(key) {
        r := cache.Get(key).value;
        return;
      }
      var topSpendingCategories := TopSpendingCategories(store.transactions, store.categories, limit);
      r := TopValue(topSpendingCategories);
      cache.Set(key, r, 10 * 60);
    }

    /** `create($name, $user)`: a new category of the user, named and
        invalidated through `update`. `id` is the identifier the database
        gives it. */
    method Create(id: int, name: string, userId: int) returns (c: Category)
      modifies store, cache
      ensures c == Category(id, userId, name)
      ensures store.categories == old(store.categories) + [c]
      ensures store.transactions == old(store.transactions)
      ensures cache.entries == Without(old(cache.entries), {TopKey(userId)})
      ensures cache.now == old(cache.now)
    {
      store.categories := store.categories + [Category(id, userId, "")];
      c := Update(|store.categories| - 1, name, userId);
    }

    /** `update($category, $name, $userId)`: renames, then deletes the
        user's top-categories key and nothing else. */
    method Update(i: nat, name: string, userId: int) returns (c: Category)
      requires i < |store.categories|
      modifies store, cache
      ensures c == old(store.categories[i]).(name := name)
      ensures store.categories == old(store.categories)[i := c]
      ensures store.transactions == old(store.transactions)
      ensures cache.entries == Without(old(cache.entries), {TopKey(userId)})
      ensures cache.now == old(cache.now)
    {
      store.categories := store.categories[i := store.categories[i].(name := name)];
      UnsetCache(userId);
      c := store.categories[i];
    }

    /** `delete($category)`: the owner is read first; the row goes, the
        transactions that referred to it lose their category, and the
        owner's top-categories key is deleted. */
    method Delete(i: nat)
      requires i < |store.categories|
      modifies store, cache
      ensures store.categories == old(store.categories[..i] + store.categories[i + 1..])
      ensures store.transactions == UnlinkCategory(old(store.transactions), old(store.categories[i].id))
      ensures cache.entries == Without(old(cache.entries), {TopKey(old(store.categories[i].userId))})
      ensures cache.now == old(cache.now)
    {
      var userId := store.categories[i].userId;
      var id := store.categories[i].id;
      store.categories := store.categories[..i] + store.categories[i + 1..];
      store.transactions := UnlinkCategory(store.transactions, id);
      UnsetCache(userId);
    }

    /** `getAllKeyedByName()`: every category is written into the map under
        its lower-cased name, in the repository's order, so a later
        category replaces an earlier one with the same lower-cased name. */
    method GetAllKeyedByName() returns (categoryMap: map<string, Category>)
      ensures KeyedByName(store.categories, categoryMap)
    {
      var categories := store.categories;
      categoryMap := map[];
      for i := 0 to |categories|
        invariant forall j :: 0 <= j < i ==> Lower(categories[j].name) in categoryMap
        invariant forall key :: key in categoryMap ==>
          exists j :: 0 <= j < i && categories[j] == categoryMap[key] && Lower(categories[j].name) == key
                   && forall k :: j < k < i ==> Lower(categories[k].name) != key
      {
        categoryMap := categoryMap[Lower(categories[i].name) := categories[i]];
      }
    }

    /** `unsetCache($userId)`. */
    method UnsetCache(userId: int)
      modifies cache
      ensures cache.entries == Without(old(cache.entries), {TopKey(userId)})
      ensures cache.now == old(cache.now)
      ensures !cache.Has(TopKey(userId))
    {
      cache.Delete(CategoryInvalidatedKey(userId));
    }
  }
}
