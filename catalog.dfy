/** The menu and category repositories, shared by the menu and category
    services: every menu belongs to a stored category, and no two categories
    have names that are equal ignoring case. Prices are integers in minor
    currency units. */
module Catalog {
  import opened Common
  import opened JavaStrings

  datatype Category = Category(id: nat, name: string, description: Option<string>)

  /** A menu item; its description and image URL may be null. */
  datatype Menu = Menu(
    id: nat,
    name: string,
    description: Option<string>,
    price: int,
    imageUrl: Option<string>,
    categoryId: nat)

  /** Some category other than `except` has `name`, ignoring case
      (existsByNameIgnoreCase, existsByNameIgnoreCaseAndIdNot). */
  predicate NameTaken(categories: map<nat, Category>, name: string, except: Option<nat>) {
    exists id :: id in categories && Some(id) != except && EqualsIgnoreCase(categories[id].name, name)
  }

  predicate DistinctNames(categories: map<nat, Category>) {
    forall a, b :: a in categories && b in categories && a != b ==> !EqualsIgnoreCase(categories[a].name, categories[b].name)
  }

  /** Storing a category under an id, with a name no other category has
      ignoring case, keeps the names distinct. */
  lemma PutKeepsNamesDistinct(categories: map<nat, Category>, c: Category)
    requires DistinctNames(categories)
    requires !NameTaken(categories, c.name, Some(c.id))
    ensures DistinctNames(categories[c.id := c])
  {
    var cs := categories[c.id := c];
    forall a, b | a in cs && b in cs && a != b ensures !EqualsIgnoreCase(cs[a].name, cs[b].name) {
      if a == c.id {
        EqualsIgnoreCaseEquivalence(cs[b].name, c.name, c.name);
        assert !EqualsIgnoreCase(categories[b].name, c.name);
      } else if b == c.id {
        assert !EqualsIgnoreCase(categories[a].name, c.name);
      }
    }
  }

  /** The menus that belong to a category (existsByCategoryId). */
  predicate HasMenus(menus: map<nat, Menu>, categoryId: nat) {
    exists id :: id in menus && menus[id].categoryId == categoryId
  }

  class CatalogStore {
    var categories: map<nat, Category>
    var nextCategoryId: nat
    var menus: map<nat, Menu>
    var nextMenuId: nat

    ghost predicate Valid()
      reads this
    {
      && (forall id :: id in categories ==> categories[id].id == id && id < nextCategoryId)
      && (forall id :: id in menus ==> menus[id].id == id && id < nextMenuId)
      && (forall id :: id in menus ==> menus[id].categoryId in categories)
      && DistinctNames(categories)
    }

    constructor ()
      ensures Valid()
      ensures categories == map[] && menus == map[] && nextCategoryId == 0 && nextMenuId == 0
    {
      categories := map[];
      nextCategoryId := 0;
      menus := map[];
      nextMenuId := 0;
    }
  }
}
