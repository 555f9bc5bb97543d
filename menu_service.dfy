/** The menu service: creating, updating and deleting menu items with their
    images in object storage, reading one menu with its reviews newest first,
    and searching the menu list. */
module MenuServices {
  import opened Common
  import opened JavaStrings
  import opened Catalog
  import opened External

  /** The MenuDTO of a create or update request; any field may be null. */
  datatype MenuRequest = MenuRequest(
    id: Option<nat>,
    categoryId: Option<nat>,
    name: Option<string>,
    description: Option<string>,
    price: Option<int>,
    imageFile: Option<ImageFile>)

  /** The key a new image is uploaded under: "menus/", a fresh UUID, "_" and
      the original file name. */
  function UploadKey(uuid: string, file: ImageFile): string {
    "menus/" + uuid + "_" + Spelled(file.originalFilename)
  }

  /** The key of a stored image, recovered from its URL: "menus/" and the
      text after the URL's last '/'. */
  function KeyOfUrl(url: string): string {
    "menus/" + AfterLastSlash(url)
  }

  /** When the object store's URL for a key is a base followed by "/" and the
      key, and the UUID and file name hold no '/', the key recovered from the
      URL is the key the image was uploaded under, so deleting an image
      removes the object that was stored. */
  lemma KeyOfUploadedUrl(base: string, uuid: string, file: ImageFile)
    requires '/' !in uuid + "_" + Spelled(file.originalFilename)
    ensures KeyOfUrl(base + "/" + UploadKey(uuid, file)) == UploadKey(uuid, file)
  {
    var name := uuid + "_" + Spelled(file.originalFilename);
    assert base + "/" + UploadKey(uuid, file) == (base + "/menus") + "/" + name;
    AfterLastSlashOfJoin(base + "/menus", name);
  }

  /** The storage calls for an image replaced on update: the old object is
      deleted when the old URL is neither null nor empty, then the new file
      is uploaded; no file means no calls. */
  function ImageCalls(oldUrl: Option<string>, file: Option<ImageFile>, uuid: string): (calls: seq<StorageCall>)
    ensures file.None? <==> calls == []
    ensures file.Some? ==> calls[|calls| - 1] == Upload(UploadKey(uuid, file.value))
    ensures file.Some? ==> (|calls| == 2 <==> oldUrl.Some? && oldUrl.value != "")
    ensures |calls| == 2 ==> calls[0] == Delete(KeyOfUrl(oldUrl.value))
  {
    if file.None? then []
    else
      (if oldUrl.Some? && oldUrl.value != "" then [Delete(KeyOfUrl(oldUrl.value))] else [])
      + [Upload(UploadKey(uuid, file.value))]
  }

  /** The checks of createMenu, in order: the category exists, the name has
      text after trimming, the price is positive, an image with content is
      given. A null category id is rejected by the repository itself. */
  function CreateCheck(req: MenuRequest, categories: map<nat, Category>): (e: Option<Error>)
    ensures e.None? <==>
      && req.categoryId.Some? && req.categoryId.value in categories
      && req.name.Some? && Trim(req.name.value) != []
      && req.price.Some? && req.price.value > 0
      && req.imageFile.Some? && !req.imageFile.value.isEmpty
    ensures req.categoryId.Some? && req.categoryId.value !in categories ==>
      e == Some(NotFound("Category not found with ID: " + NatToString(req.categoryId.value)))
    ensures req.categoryId.Some? && req.categoryId.value in categories && (req.name.None? || Trim(req.name.value) == []) ==>
      e == Some(BadRequest("Menu name is required"))
    ensures (req.categoryId.Some? && req.categoryId.value in categories && req.name.Some? && Trim(req.name.value) != []
             && (req.price.None? || req.price.value <= 0)) ==> e == Some(BadRequest("Price must be greater than 0"))
    ensures req.categoryId.Some? && req.categoryId.value in categories && e.Some? ==> e.value.BadRequest?
  {
    if req.categoryId.None? then Some(Fault("The given id must not be null"))
    else if req.categoryId.value !in categories then Some(NotFound("Category not found with ID: " + NatToString(req.categoryId.value)))
    else if req.name.None? || Trim(req.name.value) == [] then Some(BadRequest("Menu name is required"))
    else if req.price.None? || req.price.value <= 0 then Some(BadRequest("Price must be greater than 0"))
    else if req.imageFile.None? || req.imageFile.value.isEmpty then Some(BadRequest("Menu image is required"))
    else None
  }

  /** The checks of updateMenu, in order: the menu exists, the category
      exists, and then only the fields that are given: a name with text after
      trimming, a positive price, an image with content. */
  function UpdateCheck(req: MenuRequest, menus: map<nat, Menu>, categories: map<nat, Category>): (e: Option<Error>)
    ensures e.None? <==>
      && req.id.Some? && req.id.value in menus
      && req.categoryId.Some? && req.categoryId.value in categories
      && (req.name.Some? ==> Trim(req.name.value) != [])
      && (req.price.Some? ==> req.price.value > 0)
      && (req.imageFile.Some? ==> !req.imageFile.value.isEmpty)
    ensures req.id.Some? && req.id.value !in menus ==> e == Some(NotFound("Menu not found"))
    ensures req.id.Some? && req.id.value in menus && req.categoryId.Some? && req.categoryId.value !in categories ==>
      e == Some(NotFound("Category not found"))
    ensures req.id.Some? && req.id.value in menus && req.categoryId.Some? && req.categoryId.value in categories && e.Some? ==>
      e.value.BadRequest?
  {
    if req.id.None? then Some(Fault("The given id must not be null"))
    else if req.id.value !in menus then Some(NotFound("Menu not found"))
    else if req.categoryId.None? then Some(Fault("The given id must not be null"))
    else if req.categoryId.value !in categories then Some(NotFound("Category not found"))
    else if req.name.Some? && Trim(req.name.value) == [] then Some(BadRequest("Menu name cannot be empty"))
    else if req.price.Some? && req.price.value <= 0 then Some(BadRequest("Price must be greater than 0"))
    else if req.imageFile.Some? && req.imageFile.value.isEmpty then Some(BadRequest("Image file cannot be empty"))
    else None
  }

  // ---------------------------------------------------------------------------
  // Search

  /** The reference meaning of getMenus' filter: the category matches when
      one is given, and when the search has text, the lower-cased name or
      description contains the lower-cased search (a null description
      matches nothing). */
  predicate MenuMatches(m: Menu, categoryId: Option<nat>, search: Option<string>) {
    && (categoryId.None? || m.categoryId == categoryId.value)
    && (search.None? || IsBlank(search.value)
        || Contains(ToLower(m.name), ToLower(search.value))
        || (m.description.Some? && Contains(ToLower(m.description.value), ToLower(search.value))))
  }

  /** One condition of the JPA specification. */
  datatype Condition =
    | CategoryIs(categoryId: nat)
    | NameOrDescriptionLike(term: string)

  predicate Holds(m: Menu, c: Condition) {
    match c
    case CategoryIs(id) => m.categoryId == id
    case NameOrDescriptionLike(term) =>
      Contains(ToLower(m.name), term) || (m.description.Some? && Contains(ToLower(m.description.value), term))
  }

  /** buildSpecification: the conditions collected for the request. */
  function BuildSpecification(categoryId: Option<nat>, search: Option<string>): (cs: seq<Condition>)
    ensures |cs| <= 2
  {
    (if categoryId.Some? then [CategoryIs(categoryId.value)] else [])
    + (if search.Some? && !IsBlank(search.value) then [NameOrDescriptionLike(ToLower(search.value))] else [])
  }

  /** The conjunction the specification builds. */
  predicate AllHold(m: Menu, cs: seq<Condition>) {
    forall i :: 0 <= i < |cs| ==> Holds(m, cs[i])
  }

  /** The conditions the specification collects select exactly the menus the
      filter's meaning admits. */
  lemma SpecificationMeaning(m: Menu, categoryId: Option<nat>, search: Option<string>)
    ensures AllHold(m, BuildSpecification(categoryId, search)) <==> MenuMatches(m, categoryId, search)
  {
    var cs := BuildSpecification(categoryId, search);
    if categoryId.Some? {
      assert cs[0] == CategoryIs(categoryId.value);
    }
    if search.Some? && !IsBlank(search.value) {
      assert cs[|cs| - 1] == NameOrDescriptionLike(ToLower(search.value));
    }
  }

  /** With no category and no text to search for, every menu is listed. */
  lemma EmptyFilterMatchesAll(m: Menu, search: Option<string>)
    requires search.None? || IsBlank(search.value)
    ensures MenuMatches(m, None, search)
  {
  }

  // ---------------------------------------------------------------------------
  // Reviews

  /** A review inside a menu response. */
  datatype Review = Review(id: nat, rating: int, comment: string)

  predicate NewestFirst(rs: seq<Review>) {
    forall i, j :: 0 <= i < j < |rs| ==> rs[i].id >= rs[j].id
  }

  /** The review list sorted by id, highest first, as getMenuById's
      List.sort with the reversed id comparator leaves it. */
  method SortNewestFirst(rs: seq<Review>) returns (r: seq<Review>)
    ensures multiset(r) == multiset(rs)
    ensures NewestFirst(r)
  {
    r := [];
    var k := 0;
    while k < |rs|
      invariant 0 <= k <= |rs|
      invariant multiset(r) == multiset(rs[..k])
      invariant NewestFirst(r)
    {
      assert rs[..k + 1] == rs[..k] + [rs[k]];
      r := Insert(r, rs[k]);
      k := k + 1;
    }
    assert rs[..k] == rs;
  }

  /** Inserts a review into a list kept newest first, after the reviews
      whose id is at least its own. */
  method Insert(r: seq<Review>, x: Review) returns (s: seq<Review>)
    requires NewestFirst(r)
    ensures NewestFirst(s)
    ensures multiset(s) == multiset(r) + multiset{x}
  {
    var j := 0;
    while j < |r| && r[j].id >= x.id
      invariant 0 <= j <= |r|
      invariant forall i :: 0 <= i < j ==> r[i].id >= x.id
    {
      j := j + 1;
    }
    InsertKeepsOrder(r, j, x);
    assert r == r[..j] + r[j..];
    s := r[..j] + [x] + r[j..];
  }

  /** Inserting a review before the first one with a lower id keeps the list
      newest first. */
  lemma InsertKeepsOrder(r: seq<Review>, j: nat, x: Review)
    requires NewestFirst(r) && j <= |r|
    requires forall i :: 0 <= i < j ==> r[i].id >= x.id
    requires j < |r| ==> r[j].id < x.id
    ensures NewestFirst(r[..j] + [x] + r[j..])
  {
    var s := r[..j] + [x] + r[j..];
    forall a, b | 0 <= a < b < |s| ensures s[a].id >= s[b].id {
      if b == j {
        assert s[a] == r[a];
      } else if a == j {
        assert s[b] == r[b - 1];
      } else if a < j && b > j {
        assert s[a] == r[a] && s[b] == r[b - 1];
      } else if b < j {
        assert s[a] == r[a] && s[b] == r[b];
      } else {
        assert s[a] == r[a - 1] && s[b] == r[b - 1];
      }
    }
  }

  /** The menu updateMenu saves: a given name (trimmed) or price replaces the
      stored one and a null one leaves it; a given image's upload URL replaces
      the stored URL; the description is always overwritten, even with null,
      and the category always replaced; the id stays. */
  function Updated(existing: Menu, req: MenuRequest, uuid: string, urlOf: string -> string): (m: Menu)
    requires req.categoryId.Some?
    ensures m.id == existing.id
    ensures m.name == (if req.name.Some? then Trim(req.name.value) else existing.name)
    ensures m.price == (if req.price.Some? then req.price.value else existing.price)
    ensures m.description == req.description
    ensures m.categoryId == req.categoryId.value
    ensures m.imageUrl == (if req.imageFile.Some? then Some(urlOf(UploadKey(uuid, req.imageFile.value))) else existing.imageUrl)
  {
    var named := if req.name.Some? then existing.(name := Trim(req.name.value)) else existing;
    var priced := if req.price.Some? then named.(price := req.price.value) else named;
    var imaged := if req.imageFile.Some? then priced.(imageUrl := Some(urlOf(UploadKey(uuid, req.imageFile.value)))) else priced;
    imaged.(categoryId := req.categoryId.value, description := req.description)
  }

  /** Which of an update's image calls complete, case by case: a throwing
      delete stops before any call, a throwing upload after the delete, and
      otherwise every call is made and only the save can still throw. */
  lemma ImageCallsUnderFault(oldUrl: Option<string>, file: Option<ImageFile>, uuid: string, fault: Option<CallStep>)
    ensures var calls := ImageCalls(oldUrl, file, uuid);
      var deletes := oldUrl.Some? && oldUrl.value != "";
      && (file.Some? && deletes && fault == Some(DeleteObject) ==> CallsMade(calls, fault) == [] && Aborts(calls, fault))
      && (file.Some? && fault == Some(UploadObject) ==>
            CallsMade(calls, fault) == (if deletes then [Delete(KeyOfUrl(oldUrl.value))] else []) && Aborts(calls, fault))
      && (file.None? || (!(deletes && fault == Some(DeleteObject)) && fault != Some(UploadObject)) ==>
            CallsMade(calls, fault) == calls && (Aborts(calls, fault) <==> fault == Some(WriteRepository)))
  {
    var calls := ImageCalls(oldUrl, file, uuid);
    if file.Some? && oldUrl.Some? && oldUrl.value != "" {
      assert calls == [Delete(KeyOfUrl(oldUrl.value)), Upload(UploadKey(uuid, file.value))];
    } else if file.Some? {
      assert calls == [Upload(UploadKey(uuid, file.value))];
    }
  }

  /** When the upload of a replacement image throws after the old image was
      deleted, the delete is the only call made and the update is cut short,
      so the menu, which is not saved, keeps the URL of the deleted object. */
  lemma FailedUploadAfterDelete(oldUrl: string, file: ImageFile, uuid: string)
    requires oldUrl != ""
    ensures CallsMade(ImageCalls(Some(oldUrl), Some(file), uuid), Some(UploadObject)) == [Delete(KeyOfUrl(oldUrl))]
    ensures Aborts(ImageCalls(Some(oldUrl), Some(file), uuid), Some(UploadObject))
  {
    var calls := ImageCalls(Some(oldUrl), Some(file), uuid);
    assert Breaks(calls[1], Some(UploadObject));
  }

  /** An update that gives nothing but the menu's own category and
      description stores the menu as it was. */
  lemma EmptyUpdateKeepsMenu(existing: Menu, uuid: string, urlOf: string -> string)
    ensures Updated(existing, MenuRequest(Some(existing.id), Some(existing.categoryId), None, existing.description, None, None), uuid, urlOf) == existing
  {
  }

  /** A menu as getMenuById returns it: its reviews may be null. */
  datatype MenuDetail = MenuDetail(menu: Menu, reviews: Option<seq<Review>>)

  class MenuService {
    const store: CatalogStore
    /** Every call made to the object store, oldest first. */
    var storage: seq<StorageCall>

    ghost predicate Valid()
      reads this, store
    {
      store.Valid()
    }

    constructor (catalog: CatalogStore)
      requires catalog.Valid()
      ensures Valid() && store == catalog && storage == []
    {
      store := catalog;
      storage := [];
    }

    /** createMenu: after the checks the image is uploaded under a fresh key
        and the menu is stored with its trimmed name and the upload's URL;
        `uuid` is the generated UUID, `urlOf` the object store's URL for a
        key, and `fault` the collaborator call that throws, if any. A failing
        check uploads and stores nothing; a failing save leaves the uploaded
        object behind. */
    method CreateMenu(req: MenuRequest, uuid: string, urlOf: string -> string, fault: Option<CallStep>) returns (r: Result<Menu>)
      requires Valid()
      modifies this`storage, store`menus, store`nextMenuId
      ensures Valid()
      ensures CreateCheck(req, old(store.categories)).Some? ==>
        && r == Err(CreateCheck(req, old(store.categories)).value)
        && storage == old(storage) && store.menus == old(store.menus) && store.nextMenuId == old(store.nextMenuId)
      ensures CreateCheck(req, old(store.categories)).None? ==>
        var key := UploadKey(uuid, req.imageFile.value);
        var m := Menu(old(store.nextMenuId), Trim(req.name.value), req.description, req.price.value, Some(urlOf(key)), req.categoryId.value);
        && storage == old(storage) + CallsMade([Upload(key)], fault)
        && (Aborts([Upload(key)], fault) ==>
              r.Err? && r.error.Fault? && store.menus == old(store.menus) && store.nextMenuId == old(store.nextMenuId))
        && (!Aborts([Upload(key)], fault) ==>
              r == Ok(m) && store.menus == old(store.menus)[m.id := m] && store.nextMenuId == old(store.nextMenuId) + 1)
    {
      var e := CreateCheck(req, store.categories);
      if e.Some? {
        return Err(e.value);
      }
      var key := UploadKey(uuid, req.imageFile.value);
      if fault == Some(UploadObject) {
        return Err(Fault("image upload failed"));
      }
      storage := storage + [Upload(key)];
      if fault == Some(WriteRepository) {
        return Err(Fault("menu save failed"));
      }
      var m := Menu(store.nextMenuId, Trim(req.name.value), req.description, req.price.value, Some(urlOf(key)), req.categoryId.value);
      store.menus := store.menus[m.id := m];
      store.nextMenuId := store.nextMenuId + 1;
      r := Ok(m);
    }

    /** updateMenu: after the checks, a given image replaces the old one in
        object storage; a given name (trimmed) or price replaces the stored
        one and a null one leaves it; the description is always overwritten,
        even with null, and the category always replaced. Nothing is stored
        or sent to object storage when a check fails. When `fault` names a
        call that throws, the calls before it stay made and the menu is not
        saved: an upload that fails after the old image was deleted leaves
        the stored menu pointing at the deleted object. */
    method UpdateMenu(req: MenuRequest, uuid: string, urlOf: string -> string, fault: Option<CallStep>) returns (r: Result<Menu>)
      requires Valid()
      modifies this`storage, store`menus
      ensures Valid()
      ensures UpdateCheck(req, old(store.menus), old(store.categories)).Some? ==>
        && r == Err(UpdateCheck(req, old(store.menus), old(store.categories)).value)
        && storage == old(storage) && store.menus == old(store.menus)
      ensures UpdateCheck(req, old(store.menus), old(store.categories)).None? ==>
        var id := req.id.value;
        var before := old(store.menus)[id];
        var calls := ImageCalls(before.imageUrl, req.imageFile, uuid);
        && storage == old(storage) + CallsMade(calls, fault)
        && (Aborts(calls, fault) ==> r.Err? && r.error.Fault? && store.menus == old(store.menus))
        && (!Aborts(calls, fault) ==>
              && r.Ok? && r.value.id == id
              && store.menus == old(store.menus)[id := r.value]
              && r.value == Updated(before, req, uuid, urlOf))
    {
      var e := UpdateCheck(req, store.menus, store.categories);
      if e.Some? {
        return Err(e.value);
      }
      var existing := store.menus[req.id.value];
      ImageCallsUnderFault(existing.imageUrl, req.imageFile, uuid, fault);
      if req.imageFile.Some? {
        var oldUrl := existing.imageUrl;
        if oldUrl.Some? && oldUrl.value != "" {
          if fault == Some(DeleteObject) {
            return Err(Fault("image delete failed"));
          }
          storage := storage + [Delete(KeyOfUrl(oldUrl.value))];
        }
        if fault == Some(UploadObject) {
          return Err(Fault("image upload failed"));
        }
        storage := storage + [Upload(UploadKey(uuid, req.imageFile.value))];
      }
      if fault == Some(WriteRepository) {
        return Err(Fault("menu save failed"));
      }
      var updated := Updated(existing, req, uuid, urlOf);
      store.menus := store.menus[updated.id := updated];
      r := Ok(updated);
    }

    /** getMenuById: the menu and its reviews newest first; a null review list
        stays null. */
    method GetMenuById(id: nat, reviews: Option<seq<Review>>) returns (r: Result<MenuDetail>)
      requires Valid()
      ensures id !in store.menus ==> r == Err(NotFound("Menu not found"))
      ensures id in store.menus ==> r.Ok? && r.value.menu == store.menus[id]
      ensures r.Ok? ==> (r.value.reviews.None? <==> reviews.None?)
      ensures r.Ok? && reviews.Some? ==>
        multiset(r.value.reviews.value) == multiset(reviews.value) && NewestFirst(r.value.reviews.value)
    {
      if id !in store.menus {
        return Err(NotFound("Menu not found"));
      }
      var sorted := None;
      if reviews.Some? {
        var s := SortNewestFirst(reviews.value);
        sorted := Some(s);
      }
      r := Ok(MenuDetail(store.menus[id], sorted));
    }

    /** deleteMenu: the menu must exist; its image is deleted from object
        storage when its URL is neither null nor empty; then it is removed.
        A throwing delete or removal leaves the menu stored. */
    method DeleteMenu(id: nat, fault: Option<CallStep>) returns (r: Result<()>)
      requires Valid()
      modifies this`storage, store`menus
      ensures Valid()
      ensures id !in old(store.menus) ==>
        r == Err(NotFound("Menu  not found with ID: " + NatToString(id)))
        && storage == old(storage) && store.menus == old(store.menus)
      ensures id in old(store.menus) ==>
        var url := old(store.menus)[id].imageUrl;
        var calls := if url.Some? && url.value != "" then [Delete(KeyOfUrl(url.value))] else [];
        && storage == old(storage) + CallsMade(calls, fault)
        && (Aborts(calls, fault) ==> r.Err? && r.error.Fault? && store.menus == old(store.menus))
        && (!Aborts(calls, fault) ==> r.Ok? && store.menus == old(store.menus) - {id})
    {
      if id !in store.menus {
        return Err(NotFound("Menu  not found with ID: " + NatToString(id)));
      }
      var url := store.menus[id].imageUrl;
      if url.Some? && url.value != "" {
        if fault == Some(DeleteObject) {
          return Err(Fault("image delete failed"));
        }
        storage := storage + [Delete(KeyOfUrl(url.value))];
      }
      if fault == Some(WriteRepository) {
        return Err(Fault("menu delete failed"));
      }
      store.menus := store.menus - {id};
      r := Ok(());
    }

    /** getMenus: exactly the menus the filter admits, highest id first. */
    method GetMenus(categoryId: Option<nat>, search: Option<string>) returns (r: seq<Menu>)
      requires Valid()
      ensures forall i, j :: 0 <= i < j < |r| ==> r[i].id > r[j].id
      ensures forall i :: 0 <= i < |r| ==> r[i].id in store.menus && r[i] == store.menus[r[i].id]
      ensures forall id ::
        (id in store.menus && MenuMatches(store.menus[id], categoryId, search)) <==> (exists i :: 0 <= i < |r| && r[i].id == id)
    {
      var spec := BuildSpecification(categoryId, search);
      var selected := set id | id in store.menus && AllHold(store.menus[id], spec);
      var ids := KeysDescending(selected);
      r := [];
      var k := 0;
      while k < |ids|
        invariant 0 <= k <= |ids| && |r| == k
        invariant forall i :: 0 <= i < k ==> ids[i] in store.menus && r[i] == store.menus[ids[i] as nat]
      {
        assert ids[k] in ids;
        r := r + [store.menus[ids[k] as nat]];
        k := k + 1;
      }
      forall id ensures
        (id in store.menus && MenuMatches(store.menus[id], categoryId, search)) <==> (exists i :: 0 <= i < |r| && r[i].id == id)
      {
        if id in store.menus {
          SpecificationMeaning(store.menus[id], categoryId, search);
        }
        if id in store.menus && MenuMatches(store.menus[id], categoryId, search) {
          assert id in selected;
          assert id in ids;
          var n :| 0 <= n < |ids| && ids[n] == id;
          assert r[n].id == id;
        }
        if exists i :: 0 <= i < |r| && r[i].id == id {
          var n :| 0 <= n < |r| && r[n].id == id;
          assert ids[n] in ids;
        }
      }
    }
  }
}
