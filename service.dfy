/** The in-memory blog store: a table of records kept in insertion order,
    an identifier counter, and the six exported operations over them. */
module Service {

  datatype Option<T> = None | Some(value: T)

  /** The instant a record was created. The store never inspects it; the
      caller supplies it where the source reads the wall clock. */
  datatype Timestamp = Timestamp(millis: int)

  datatype Blog = Blog(id: nat, title: string, content: string, author: string, createdAt: Timestamp)

  /** The partial record passed to an update. `None` means the key is absent
      from the object; `Some(s)` means it is present, even when `s` is "". */
  datatype BlogUpdate = BlogUpdate(title: Option<string>, content: Option<string>, author: Option<string>)

  /** An update object with no keys at all. */
  const NoChanges: BlogUpdate := BlogUpdate(None, None, None)

  // ---------------------------------------------------------------------------
  // Properties of a record sequence
  // ---------------------------------------------------------------------------

  /** Identifiers strictly increase in array order (so no two records share one). */
  predicate IdsIncreasing(s: seq<Blog>) {
    forall i, j :: 0 <= i < j < |s| ==> s[i].id < s[j].id
  }

  /** Every identifier is positive and below `bound`. */
  predicate IdsBelow(s: seq<Blog>, bound: nat) {
    forall i :: 0 <= i < |s| ==> 1 <= s[i].id < bound
  }

  predicate HasId(s: seq<Blog>, id: int) {
    exists i :: 0 <= i < |s| && s[i].id == id
  }

  // ---------------------------------------------------------------------------
  // Array primitives the store is built on
  // ---------------------------------------------------------------------------

  /** `findIndex` with the predicate `blog.id === id`: the position of the
      first record with that identifier, or -1 when there is none. */
  function IndexOf(s: seq<Blog>, id: int): (r: int)
    ensures -1 <= r < |s|
    ensures 0 <= r ==> s[r].id == id && forall k :: 0 <= k < r ==> s[k].id != id
    ensures r == -1 ==> !HasId(s, id)
  {
    if s == [] then -1
    else if s[0].id == id then 0
    else
      var rest := IndexOf(s[1..], id);
      if rest == -1 then -1 else rest + 1
  }

  /** `find` with the predicate `blog.id === id`: the first record with that
      identifier, or nothing. It yields the element `findIndex` points at. */
  function FindById(s: seq<Blog>, id: int): (r: Option<Blog>)
    ensures r.Some? ==> r.value in s && r.value.id == id
    ensures r.None? <==> !HasId(s, id)
    ensures r == if IndexOf(s, id) == -1 then None else Some(s[IndexOf(s, id)])
  {
    if s == [] then None
    else if s[0].id == id then Some(s[0])
    else FindById(s[1..], id)
  }

  /** The records of `s` other than those with identifier `id`, in their
      original relative order. */
  function Without(s: seq<Blog>, id: int): (r: seq<Blog>)
    ensures |r| <= |s|
    ensures forall b :: b in r <==> b in s && b.id != id
  {
    if s == [] then []
    else if s[0].id == id then Without(s[1..], id)
    else [s[0]] + Without(s[1..], id)
  }

  /** `Object.assign(blog, updates)` on a record: a field whose key is
      present is overwritten (even with ""), a field whose key is absent keeps
      its value, and the identifier and creation time never change. */
  function Apply(b: Blog, u: BlogUpdate): (r: Blog)
    ensures r.id == b.id && r.createdAt == b.createdAt
    ensures u.title.Some? ==> r.title == u.title.value
    ensures u.title.None? ==> r.title == b.title
    ensures u.content.Some? ==> r.content == u.content.value
    ensures u.content.None? ==> r.content == b.content
    ensures u.author.Some? ==> r.author == u.author.value
    ensures u.author.None? ==> r.author == b.author
    ensures u == NoChanges ==> r == b
  {
    b.(title := if u.title.Some? then u.title.value else b.title,
       content := if u.content.Some? then u.content.value else b.content,
       author := if u.author.Some? then u.author.value else b.author)
  }

  // ---------------------------------------------------------------------------
  // Lemmas relating the primitives
  // ---------------------------------------------------------------------------

  /** In a sequence with increasing identifiers, looking up a record's own
      identifier finds that record. */
  lemma FindOwnId(s: seq<Blog>, i: nat)
    requires IdsIncreasing(s) && i < |s|
    ensures IndexOf(s, s[i].id) == i
    ensures FindById(s, s[i].id) == Some(s[i])
  {
  }

  /** A record appended with an identifier above all present ones is found by
      that identifier. */
  lemma {:induction false} FindAppended(s: seq<Blog>, b: Blog)
    requires IdsBelow(s, b.id)
    ensures FindById(s + [b], b.id) == Some(b)
  {
    if s != [] {
      assert (s + [b])[1..] == s[1..] + [b];
      FindAppended(s[1..], b);
    }
  }

  /** Removing the record at a position is the same as removing every record
      with its identifier, when identifiers increase. */
  lemma {:induction false} WithoutIsSplice(s: seq<Blog>, i: nat)
    requires IdsIncreasing(s) && i < |s|
    ensures Without(s, s[i].id) == s[..i] + s[i + 1..]
  {
    if i == 0 {
      WithoutAbsent(s[1..], s[0].id);
      assert s[..0] + s[1..] == s[1..];
    } else {
      assert s[0].id < s[i].id;
      assert s[1..][i - 1] == s[i];
      WithoutIsSplice(s[1..], i - 1);
      assert s[..i] + s[i + 1..] == [s[0]] + (s[1..][..i - 1] + s[1..][i..]);
    }
  }

  /** Removing an identifier that is not present changes nothing. */
  lemma {:induction false} WithoutAbsent(s: seq<Blog>, id: int)
    requires !HasId(s, id)
    ensures Without(s, id) == s
  {
    if s != [] {
      WithoutAbsent(s[1..], id);
      assert [s[0]] + s[1..] == s;
    }
  }

  /** Increasing identifiers name at most one position each. */
  lemma IdsUnique(s: seq<Blog>, i: nat)
    requires IdsIncreasing(s) && i < |s|
    ensures forall k :: 0 <= k < |s| && s[k].id == s[i].id ==> k == i
  {
  }

  /** Dropping one element keeps the identifiers increasing and bounded. */
  lemma SpliceKeepsOrder(s: seq<Blog>, i: nat, bound: nat)
    requires IdsIncreasing(s) && IdsBelow(s, bound) && i < |s|
    ensures IdsIncreasing(s[..i] + s[i + 1..]) && IdsBelow(s[..i] + s[i + 1..], bound)
  {
  }

  // ---------------------------------------------------------------------------
  // The store
  // ---------------------------------------------------------------------------

  /** The module-level state: the `blogs` array and the `nextId` counter. */
  class Store {
    var blogs: seq<Blog>
    var nextId: nat

    /** Identifiers are positive, strictly increasing in array order and all
        below the counter, which starts at 1. */
    ghost predicate Valid()
      reads this
    {
      1 <= nextId && IdsIncreasing(blogs) && IdsBelow(blogs, nextId)
    }

    /** The initial state: an empty array and the counter at 1. */
    constructor ()
      ensures Valid()
      ensures blogs == [] && nextId == 1
    {
      blogs := [];
      nextId := 1;
    }

    /** `resetBlogs`: empty the array and restart the counter at 1. */
    method Reset()
      modifies this
      ensures Valid()
      ensures blogs == [] && nextId == 1
    {
      blogs := [];
      nextId := 1;
    }

    /** `createBlog`: take the next identifier, stamp the record with `now`,
        append it and return it. */
    method Create(title: string, content: string, author: string, now: Timestamp) returns (blog: Blog)
      requires Valid()
      modifies this
      ensures Valid()
      ensures blog == Blog(old(nextId), title, content, author, now)
      ensures nextId == old(nextId) + 1
      ensures blogs == old(blogs) + [blog]
      ensures forall k :: 0 <= k < |old(blogs)| ==> old(blogs)[k].id < blog.id
      ensures GetById(blog.id) == Some(blog)
    {
      blog := Blog(nextId, title, content, author, now);
      nextId := nextId + 1;
      FindAppended(blogs, blog);
      blogs := blogs + [blog];
    }

    /** `getAllBlogs`: every record, in insertion order. */
    function GetAll(): (r: seq<Blog>)
      reads this
      requires Valid()
      ensures r == blogs
      ensures IdsIncreasing(r)
    {
      blogs
    }

    /** `getBlogById`: the record with identifier `id`, or nothing. */
    function GetById(id: int): (r: Option<Blog>)
      reads this
      requires Valid()
      ensures r.None? <==> !HasId(blogs, id)
      ensures r.Some? ==> r.value in blogs && r.value.id == id
      ensures r.Some? ==> forall k :: 0 <= k < |blogs| && blogs[k].id == id ==> blogs[k] == r.value
    {
      var found := FindById(blogs, id);
      assert found.Some? ==> forall k :: 0 <= k < |blogs| && blogs[k].id == id ==> blogs[k] == found.value by {
        if found.Some? { IdsUnique(blogs, IndexOf(blogs, id)); }
      }
      found
    }

    /** `deleteBlog`: remove the first record with identifier `id` and report
        whether there was one. The counter is left alone, so the identifier is
        never handed out again. */
    method Delete(id: int) returns (deleted: bool)
      requires Valid()
      modifies this
      ensures Valid()
      ensures nextId == old(nextId)
      ensures deleted <==> old(HasId(blogs, id))
      ensures blogs == Without(old(blogs), id)
      ensures deleted ==> |blogs| == |old(blogs)| - 1
      ensures deleted ==> exists i :: 0 <= i < |old(blogs)| && old(blogs)[i].id == id
                                      && blogs == old(blogs)[..i] + old(blogs)[i + 1..]
      ensures !deleted ==> blogs == old(blogs)
      ensures GetById(id).None?
      ensures forall b :: b in old(blogs) && b.id != id ==> b in blogs
    {
      var index := IndexOf(blogs, id);
      if index > -1 {
        WithoutIsSplice(blogs, index);
        SpliceKeepsOrder(blogs, index, nextId);
        blogs := blogs[..index] + blogs[index + 1..];
        deleted := true;
      } else {
        WithoutAbsent(blogs, id);
        deleted := false;
      }
    }

    /** `updateBlog`: overwrite the supplied fields of the record with
        identifier `id` in place and return it, or return nothing. */
    method Update(id: int, updates: BlogUpdate) returns (r: Option<Blog>)
      requires Valid()
      modifies this
      ensures Valid()
      ensures nextId == old(nextId)
      ensures r.None? <==> old(GetById(id)).None?
      ensures r.Some? ==> r.value == Apply(old(GetById(id)).value, updates)
      ensures |blogs| == |old(blogs)|
      ensures forall k :: 0 <= k < |blogs| ==>
                blogs[k] == if old(blogs)[k].id == id then Apply(old(blogs)[k], updates) else old(blogs)[k]
      ensures r.Some? ==> GetById(id) == r
    {
      // `find` yields the element at the position `findIndex` reports, and the
      // record is changed where it stands.
      var index := IndexOf(blogs, id);
      if index > -1 {
        var blog := Apply(blogs[index], updates);
        ghost var before := blogs;
        blogs := blogs[index := blog];
        forall k | 0 <= k < |blogs|
          ensures blogs[k] == if before[k].id == id then Apply(before[k], updates) else before[k]
        {
          if k < index { assert before[k].id < before[index].id; }
          else if k > index { assert before[index].id < before[k].id; }
        }
        FindOwnId(blogs, index);
        r := Some(blog);
      } else {
        r := None;
      }
    }
  }
}
