/** The category service: category names are required, unique ignoring case,
    and a category cannot be deleted while menus belong to it. */
module CategoryServices {
  import opened Common
  import opened JavaStrings
  import opened Catalog

  /** The CategoryDTO of a request; any field may be null. */
  datatype CategoryRequest = CategoryRequest(id: Option<nat>, name: Option<string>, description: Option<string>)

  /** The checks of addCategory, in order: a name with text after trimming,
      then no category with that name ignoring case; the duplicate check uses
      the name as given, untrimmed. */
  function AddCheck(req: CategoryRequest, categories: map<nat, Category>): (e: Option<Error>)
    ensures e.None? <==> req.name.Some? && Trim(req.name.value) != [] && !NameTaken(categories, req.name.value, None)
    ensures req.name.None? || Trim(req.name.value) == [] ==> e == Some(BadRequest("Category name is required"))
    ensures e.Some? ==> e.value.BadRequest?
  {
    if req.name.None? || Trim(req.name.value) == [] then Some(BadRequest("Category name is required"))
    else if NameTaken(categories, req.name.value, None) then Some(BadRequest("Category name already exists"))
    else None
  }

  /** The checks of updateCategory, in order: the category exists; a given
      name, trimmed, is not empty and belongs to no other category ignoring
      case. */
  function UpdateCheck(req: CategoryRequest, categories: map<nat, Category>): (e: Option<Error>)
    ensures e.None? <==>
      && req.id.Some? && req.id.value in categories
      && (req.name.Some? ==> Trim(req.name.value) != [] && !NameTaken(categories, Trim(req.name.value), req.id))
    ensures req.id.Some? && req.id.value !in categories ==> e == Some(NotFound("Category Not Found"))
    ensures req.id.Some? && req.id.value in categories && e.Some? ==> e.value.BadRequest?
  {
    if req.id.None? then Some(Fault("The given id must not be null"))
    else if req.id.value !in categories then Some(NotFound("Category Not Found"))
    else if req.name.Some? && Trim(req.name.value) == [] then Some(BadRequest("Category name cannot be empty"))
    else if req.name.Some? && NameTaken(categories, Trim(req.name.value), req.id) then Some(BadRequest("Category name already exists"))
    else None
  }

  /** The category updateCategory saves: a given name is stored trimmed, a
      given description replaces the stored one, and a null field is left as
      it was. */
  function Renamed(c: Category, req: CategoryRequest): (r: Category)
    ensures r.id == c.id
    ensures r.name == (if req.name.Some? then Trim(req.name.value) else c.name)
    ensures r.description == (if req.description.Some? then req.description else c.description)
  {
    var named := if req.name.Some? then c.(name := Trim(req.name.value)) else c;
    if req.description.Some? then named.(description := req.description) else named
  }

  /** Keeping one's own name is not a clash: renaming a category to the name
      it already has, or to another spelling of it, passes the checks as long
      as the names were distinct to begin with. */
  lemma OwnNameIsNotTaken(categories: map<nat, Category>, id: nat, name: string)
    requires DistinctNames(categories) && id in categories
    requires EqualsIgnoreCase(name, categories[id].name)
    ensures !NameTaken(categories, name, Some(id))
  {
    forall other | other in categories && other != id ensures !EqualsIgnoreCase(categories[other].name, name) {
      EqualsIgnoreCaseEquivalence(categories[other].name, name, categories[id].name);
    }
  }

  class CategoryService {
    const store: CatalogStore

    ghost predicate Valid()
      reads this, store
    {
      store.Valid()
    }

    constructor (catalog: CatalogStore)
      requires catalog.Valid()
      ensures Valid() && store == catalog
    {
      store := catalog;
    }

    /** addCategory: after the checks the category is stored with the name
        and description as given; a failed check stores nothing. */
    method AddCategory(req: CategoryRequest) returns (r: Result<Category>)
      requires Valid()
      modifies store`categories, store`nextCategoryId
      ensures Valid()
      ensures AddCheck(req, old(store.categories)).Some? ==>
        && r == Err(AddCheck(req, old(store.categories)).value)
        && store.categories == old(store.categories) && store.nextCategoryId == old(store.nextCategoryId)
      ensures AddCheck(req, old(store.categories)).None? ==>
        var c := Category(old(store.nextCategoryId), req.name.value, req.description);
        && r == Ok(c)
        && store.categories == old(store.categories)[c.id := c]
        && store.nextCategoryId == old(store.nextCategoryId) + 1
    {
      var e := AddCheck(req, store.categories);
      if e.Some? {
        return Err(e.value);
      }
      var c := Category(store.nextCategoryId, req.name.value, req.description);
      PutKeepsNamesDistinct(store.categories, c);
      store.categories := store.categories[c.id := c];
      store.nextCategoryId := store.nextCategoryId + 1;
      r := Ok(c);
    }

    /** updateCategory: after the checks the category is saved with the
        given name (trimmed) and description; null fields stay unchanged. */
    method UpdateCategory(req: CategoryRequest) returns (r: Result<Category>)
      requires Valid()
      modifies store`categories
      ensures Valid()
      ensures UpdateCheck(req, old(store.categories)).Some? ==>
        r == Err(UpdateCheck(req, old(store.categories)).value) && store.categories == old(store.categories)
      ensures UpdateCheck(req, old(store.categories)).None? ==>
        var c := Renamed(old(store.categories)[req.id.value], req);
        r == Ok(c) && store.categories == old(store.categories)[req.id.value := c]
    {
      var e := UpdateCheck(req, store.categories);
      if e.Some? {
        return Err(e.value);
      }
      var c := Renamed(store.categories[req.id.value], req);
      if req.name.None? {
        OwnNameIsNotTaken(store.categories, c.id, c.name);
      }
      PutKeepsNamesDistinct(store.categories, c);
      store.categories := store.categories[c.id := c];
      r := Ok(c);
    }

    /** getAllCategories: every stored category, in id order. */
    method GetAllCategories() returns (r: seq<Category>)
      requires Valid()
      ensures |r| == |store.categories|
      ensures forall i, j :: 0 <= i < j < |r| ==> r[i].id < r[j].id
      ensures forall i :: 0 <= i < |r| ==> r[i].id in store.categories && r[i] == store.categories[r[i].id]
      ensures forall id :: id in store.categories <==> (exists i :: 0 <= i < |r| && r[i].id == id)
    {
      var ids := KeysAscending(store.categories.Keys);
      r := [];
      var k := 0;
      while k < |ids|
        invariant 0 <= k <= |ids| && |r| == k
        invariant forall i :: 0 <= i < k ==> ids[i] in store.categories && r[i] == store.categories[ids[i] as nat]
      {
        assert ids[k] in ids;
        r := r + [store.categories[ids[k] as nat]];
        k := k + 1;
      }
      assert |store.categories.Keys| == |store.categories|;
      forall id | id in store.categories ensures exists i :: 0 <= i < |r| && r[i].id == id {
        var n :| 0 <= n < |ids| && ids[n] == id;
        assert r[n].id == id;
      }
    }

    /** deleteCategory: the category must exist and no menu may belong to
        it; otherwise it is removed. A refused delete leaves it in place. */
    method DeleteCategory(id: nat) returns (r: Result<()>)
      requires Valid()
      modifies store`categories
      ensures Valid()
      ensures id !in old(store.categories) ==> r == Err(NotFound("Category Not Found")) && store.categories == old(store.categories)
      ensures id in old(store.categories) && HasMenus(store.menus, id) ==>
        r == Err(BadRequest("Category is linked to Menu and cannot be deleted")) && store.categories == old(store.categories)
      ensures id in old(store.categories) && !HasMenus(store.menus, id) ==>
        r == Ok(()) && store.categories == old(store.categories) - {id}
    {
      if id !in store.categories {
        return Err(NotFound("Category Not Found"));
      }
      if HasMenus(store.menus, id) {
        return Err(BadRequest("Category is linked to Menu and cannot be deleted"));
      }
      store.categories := store.categories - {id};
      r := Ok(());
    }
  }
}
