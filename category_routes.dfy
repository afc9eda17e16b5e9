/**
 * The category routes of the server (src/api/routes/categories.py): create,
 * read, update, delete and look up by name over a table of categories whose
 * names the routes keep unique.
 */
module CategoryRoutes {
  import opened Common

  const NAME_TAKEN: string := "Une catégorie avec ce nom existe déjà"
  const CATEGORY_NOT_FOUND: string := "Catégorie non trouvée"

  datatype Category = Category(id: int, name: string, description: Option<string>)

  /** The body of a create request. */
  datatype CategoryCreate = CategoryCreate(name: string, description: Option<string>)

  /** The body of an update request: a field left out is None and is not written. */
  datatype CategoryUpdate = CategoryUpdate(name: Option<string>, description: Option<string>)

  /** No two categories of the table share a name. */
  ghost predicate UniqueNames(categories: map<int, Category>)
  {
    forall a, b :: a in categories && b in categories && categories[a].name == categories[b].name ==> a == b
  }

  /** The category after the repository writes the supplied fields of an update into it. */
  function Applied(category: Category, patch: CategoryUpdate): (r: Category)
    ensures r.id == category.id
    ensures r.name == (if patch.name.Some? then patch.name.value else category.name)
    ensures r.description == (if patch.description.Some? then patch.description else category.description)
  {
    var named := match patch.name case Some(n) => category.(name := n) case None => category;
    match patch.description case Some(_) => named.(description := patch.description) case None => named
  }

  /** What one update request answers, and the table afterwards. */
  datatype UpdateOutcome = UpdateOutcome(response: Result<Category, HttpError>, categories: map<int, Category>)

  /**
   * update_category as written: the name check is skipped whenever the new name
   * is falsy, so a rename to the empty string is written without looking for a
   * category that already has that name.
   */
  function UpdateAsWritten(categories: map<int, Category>, id: int, patch: CategoryUpdate): (o: UpdateOutcome)
    ensures id !in categories ==> o == UpdateOutcome(Err(HttpError(NOT_FOUND, CATEGORY_NOT_FOUND)), categories)
    ensures o.response.Err? ==> o.categories == categories
    ensures id in categories && o.response.Err? ==> o.response.error == HttpError(BAD_REQUEST, NAME_TAKEN)
    ensures id in categories && patch.name.Some? && patch.name.value != "" && patch.name.value != categories[id].name ==>
      (o.response.Err? <==> exists other :: other in categories && categories[other].name == patch.name.value)
    ensures id in categories && (patch.name.None? || patch.name.value == "" || patch.name.value == categories[id].name) ==>
      o.response.Ok?
    ensures o.response.Ok? ==> id in categories && o.categories == categories[id := Applied(categories[id], patch)]
  {
    if id !in categories then UpdateOutcome(Err(HttpError(NOT_FOUND, CATEGORY_NOT_FOUND)), categories)
    else if patch.name.Some? && patch.name.value != "" && patch.name.value != categories[id].name
            && exists other :: other in categories && categories[other].name == patch.name.value
    then UpdateOutcome(Err(HttpError(BAD_REQUEST, NAME_TAKEN)), categories)
    else
      var updated := Applied(categories[id], patch);
      UpdateOutcome(Ok(updated), categories[id := updated])
  }

  /** Renaming a category to "" when another category is already called "" goes through and leaves two categories with one name. */
  lemma EmptyRenameDuplicatesName()
    ensures var table := map[1 := Category(1, "Roman", None), 2 := Category(2, "", None)];
      && UniqueNames(table)
      && UpdateAsWritten(table, 1, CategoryUpdate(Some(""), None)).response.Ok?
      && !UniqueNames(UpdateAsWritten(table, 1, CategoryUpdate(Some(""), None)).categories)
  {
    var table := map[1 := Category(1, "Roman", None), 2 := Category(2, "", None)];
    var after := UpdateAsWritten(table, 1, CategoryUpdate(Some(""), None)).categories;
    assert after[1].name == after[2].name;
  }

  /** Only a rename to the empty string can break unique names: every other update keeps them. */
  lemma AsWrittenKeepsUniqueUnlessEmpty(categories: map<int, Category>, id: int, patch: CategoryUpdate)
    requires UniqueNames(categories)
    requires patch.name != Some("")
    ensures UniqueNames(UpdateAsWritten(categories, id, patch).categories)
  {
  }

  /** Any member of a non-empty set of ids. */
  lemma SomeKey(ids: set<int>) returns (k: int)
    requires ids != {}
    ensures k in ids
  {
    if forall x :: x !in ids {
      assert false;
    }
    k :| k in ids;
  }

  /** The category table as the routes mutate it through the repository. */
  class CategoryTable {
    var categories: map<int, Category>
    var nextId: int

    /** Every category sits under its own id, below the next id to hand out, and names are unique. */
    ghost predicate Valid()
      reads this
    {
      && (forall id :: id in categories ==> categories[id].id == id && id < nextId)
      && UniqueNames(categories)
    }

    constructor ()
      ensures Valid() && categories == map[]
    {
      categories := map[];
      nextId := 1;
    }

    /** repository.get_by_name: the category carrying the name, if any. */
    method FindByName(name: string) returns (r: Option<Category>)
      requires Valid()
      ensures r.Some? ==> r.value.id in categories && categories[r.value.id] == r.value && r.value.name == name
      ensures r.None? ==> forall id :: id in categories ==> categories[id].name != name
    {
      var unseen := categories.Keys;
      while unseen != {}
        invariant unseen <= categories.Keys
        invariant forall id :: id in categories && id !in unseen ==> categories[id].name != name
        decreases unseen
      {
        ghost var some := SomeKey(unseen);
        var key :| key in unseen;
        if categories[key].name == name {
          return Some(categories[key]);
        }
        unseen := unseen - {key};
      }
      r := None;
    }

    /** POST /categories/: refuse a name already in use, otherwise insert under a fresh id. */
    method Create(input: CategoryCreate) returns (r: Result<Category, HttpError>)
      requires Valid()
      modifies this
      ensures Valid()
      ensures (exists id :: id in old(categories) && old(categories)[id].name == input.name) <==> r.Err?
      ensures r.Err? ==> r.error == HttpError(BAD_REQUEST, NAME_TAKEN) && categories == old(categories)
      ensures r.Ok? ==>
        && r.value.id !in old(categories)
        && r.value.name == input.name && r.value.description == input.description
        && categories == old(categories)[r.value.id := r.value]
    {
      var existing := FindByName(input.name);
      if existing.Some? {
        return Err(HttpError(BAD_REQUEST, NAME_TAKEN));
      }
      var category := Category(nextId, input.name, input.description);
      categories := categories[nextId := category];
      nextId := nextId + 1;
      r := Ok(category);
    }

    /** GET /categories/{id}. */
    method Read(id: int) returns (r: Result<Category, HttpError>)
      ensures r.Ok? <==> id in categories
      ensures r.Ok? ==> r.value == categories[id]
      ensures r.Err? ==> r.error == HttpError(NOT_FOUND, CATEGORY_NOT_FOUND)
    {
      if id !in categories {
        return Err(HttpError(NOT_FOUND, CATEGORY_NOT_FOUND));
      }
      r := Ok(categories[id]);
    }

    /**
     * PUT /categories/{id} with the name check applied to every supplied name
     * that differs from the current one, the empty name included.
     */
    method Update(id: int, patch: CategoryUpdate) returns (r: Result<Category, HttpError>)
      requires Valid()
      modifies this
      ensures Valid()
      ensures id !in old(categories) ==> r == Err(HttpError(NOT_FOUND, CATEGORY_NOT_FOUND))
      ensures r.Err? ==> categories == old(categories)
      ensures r.Err? && id in old(categories) ==> r.error == HttpError(BAD_REQUEST, NAME_TAKEN)
      ensures id in old(categories) && patch.name.Some? && patch.name.value != old(categories)[id].name ==>
        (r.Err? <==> exists other :: other in old(categories) && old(categories)[other].name == patch.name.value)
      ensures id in old(categories) && (patch.name.None? || patch.name.value == old(categories)[id].name) ==> r.Ok?
      ensures r.Ok? ==>
        && id in old(categories)
        && r.value == Applied(old(categories)[id], patch)
        && categories == old(categories)[id := r.value]
    {
      var found := Read(id);
      if found.Err? {
        return found;
      }
      var category := found.value;
      if patch.name.Some? && patch.name.value != category.name {
        var existing := FindByName(patch.name.value);
        if existing.Some? {
          return Err(HttpError(BAD_REQUEST, NAME_TAKEN));
        }
      }
      category := Applied(category, patch);
      categories := categories[id := category];
      r := Ok(category);
    }

    /** DELETE /categories/{id}: remove exactly that category and answer with it. */
    method Delete(id: int) returns (r: Result<Category, HttpError>)
      requires Valid()
      modifies this
      ensures Valid()
      ensures r.Ok? <==> id in old(categories)
      ensures r.Err? ==> r.error == HttpError(NOT_FOUND, CATEGORY_NOT_FOUND) && categories == old(categories)
      ensures r.Ok? ==> r.value == old(categories)[id] && categories == old(categories) - {id}
    {
      var found := Read(id);
      if found.Err? {
        return found;
      }
      categories := categories - {id};
      r := found;
    }

    /** GET /categories/name/{name}. */
    method GetByName(name: string) returns (r: Result<Category, HttpError>)
      requires Valid()
      ensures r.Err? <==> forall id :: id in categories ==> categories[id].name != name
      ensures r.Err? ==> r.error == HttpError(NOT_FOUND, CATEGORY_NOT_FOUND)
      ensures r.Ok? ==> r.value.id in categories && categories[r.value.id] == r.value && r.value.name == name
    {
      var found := FindByName(name);
      if found.None? {
        return Err(HttpError(NOT_FOUND, CATEGORY_NOT_FOUND));
      }
      r := Ok(found.value);
    }
  }
}
