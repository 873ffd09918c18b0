/** Call sequences from, or in the manner of, the store's tests, each run on
    a fresh store, with the expected outcomes stated as postconditions. */
module Scenarios {
  import opened Service

  /** Two creates after a reset receive consecutive identifiers 1 and 2, and
      both are listed in creation order. */
  method CreateTwice(t1: Timestamp, t2: Timestamp) returns (first: Blog, second: Blog, all: seq<Blog>)
    ensures first.id == 1 && second.id == first.id + 1
    ensures first.title == "Blog 1" && second.title == "Blog 2"
    ensures all == [first, second]
  {
    var store := new Store();
    store.Reset();
    first := store.Create("Blog 1", "Content 1", "Author 1", t1);
    second := store.Create("Blog 2", "Content 2", "Author 2", t2);
    all := store.GetAll();
  }

  /** Deleting the first of two records leaves only the second. */
  method DeleteFirstOfTwo(t1: Timestamp, t2: Timestamp) returns (deleted: bool, remaining: seq<Blog>)
    ensures deleted
    ensures |remaining| == 1 && remaining[0].id == 2
  {
    var store := new Store();
    var first := store.Create("Blog 1", "Content 1", "Author 1", t1);
    var second := store.Create("Blog 2", "Content 2", "Author 2", t2);
    deleted := store.Delete(first.id);
    remaining := store.GetAll();
  }

  /** Updating only the title leaves content, identifier and creation time
      as they were, and a later lookup sees the change. */
  method UpdateTitleOnly(t: Timestamp) returns (created: Blog, updated: Option<Blog>, looked: Option<Blog>)
    ensures updated.Some? && updated.value.title == "New Title"
    ensures updated.value.content == created.content == "Content"
    ensures updated.value.id == created.id && updated.value.createdAt == created.createdAt == t
    ensures looked == updated
  {
    var store := new Store();
    created := store.Create("Old Title", "Content", "Author", t);
    updated := store.Update(created.id, BlogUpdate(Some("New Title"), None, None));
    looked := store.GetById(created.id);
  }

  /** Identifier 999 was never handed out: lookup, delete and update all
      report that it is absent and leave the store empty. */
  method MissingId() returns (found: Option<Blog>, deleted: bool, updated: Option<Blog>, all: seq<Blog>)
    ensures found.None? && !deleted && updated.None?
    ensures all == []
  {
    var store := new Store();
    found := store.GetById(999);
    deleted := store.Delete(999);
    updated := store.Update(999, BlogUpdate(Some("New Title"), None, None));
    all := store.GetAll();
  }

  /** Sending the same update twice, on any store and any identifier: the
      second call returns what the first returned and leaves the stored
      records and the counter as the first call left them. */
  method RepeatUpdate(store: Store, id: int, u: BlogUpdate)
    returns (once: Option<Blog>, twice: Option<Blog>, afterOnce: seq<Blog>)
    requires store.Valid()
    modifies store
    ensures store.Valid()
    ensures twice == once
    ensures once.Some? <==> old(store.GetById(id)).Some?
    ensures store.blogs == afterOnce && store.nextId == old(store.nextId)
  {
    once := store.Update(id, u);
    afterOnce := store.GetAll();
    twice := store.Update(id, u);
  }

  /** An identifier stays retired after its record is deleted: the next
      create gets a fresh one. */
  method NoReuseAfterDelete(t1: Timestamp, t2: Timestamp) returns (gone: Blog, next: Blog)
    ensures gone.id == 1 && next.id == 2
  {
    var store := new Store();
    gone := store.Create("A", "B", "C", t1);
    var _ := store.Delete(gone.id);
    next := store.Create("A", "B", "C", t2);
  }
}
