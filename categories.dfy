/**
  The category controller. Names are compared up to letter case and stored
  as given (the category schema does not trim); a category that some product
  refers to can be neither deleted nor deactivated.
 */
module CategoriesController {
  import opened Common
  import opened Text
  import opened ProductModel
  import opened Database

  /** The case-insensitive `^name$` lookup, skipping `except`. */
  predicate NameClash(cs: map<Id, Category>, name: string, except: Option<Id>) {
    exists cid :: cid in cs && Some(cid) != except && SameIgnoringCase(cs[cid].name, name)
  }

  /**
    `createCategory`: a name taken up to case is 400, an empty name fails
    `required` and is 400; otherwise the category is stored under a fresh id,
    active unless the request says otherwise. The unique index cannot refuse
    what the case-insensitive check let through.
   */
  method CreateCategory(db: Db, name: string, isActive: Option<bool>) returns (status: int)
    requires db.Valid()
    modifies db`categories, db`nextId
    ensures db.Valid()
    ensures status == CREATED || status == BAD_REQUEST
    ensures status == CREATED <==> !NameClash(old(db.categories), name, None) && name != []
    ensures status == CREATED ==> db.categories == old(db.categories)[old(db.nextId) := Category(name, isActive.GetOr(true))]
    ensures status == BAD_REQUEST ==> db.categories == old(db.categories)
    ensures db.nextId == old(db.nextId) + (if status == CREATED then 1 else 0)
  {
    if NameClash(db.categories, name, None) {
      return BAD_REQUEST;
    }
    if name == [] {
      return BAD_REQUEST;
    }
    var _ := db.AddCategory(Category(name, isActive.GetOr(true)));
    status := CREATED;
  }

  /**
    `deleteCategory`: refused with 400 while a product is in the category,
    checked before existence; then 404 when missing; otherwise removed. No
    product is ever left pointing at a category this removes.
   */
  method DeleteCategory(db: Db, id: Id) returns (status: int)
    requires db.Valid()
    modifies db`categories
    ensures db.Valid()
    ensures status == BAD_REQUEST <==> CategoryInUse(db.products, id)
    ensures status == NOT_FOUND <==> !CategoryInUse(db.products, id) && id !in old(db.categories)
    ensures status == OK <==> !CategoryInUse(db.products, id) && id in old(db.categories)
    ensures status == OK ==> db.categories == old(db.categories) - {id}
    ensures status != OK ==> db.categories == old(db.categories)
    ensures forall pid :: pid in db.products && db.products[pid].category in old(db.categories) ==>
      db.products[pid].category in db.categories
  {
    if CategoryInUse(db.products, id) {
      return BAD_REQUEST;
    }
    if id !in db.categories {
      return NOT_FOUND;
    }
    db.categories := db.categories - {id};
    status := OK;
  }

  /**
    `updateCategory`: a name taken up to case by another category is 400, a
    missing id 404; otherwise the name is replaced, and the flag when given.
    No validators run, so the name may become empty.
   */
  method UpdateCategory(db: Db, id: Id, name: string, isActive: Option<bool>) returns (status: int)
    requires db.Valid()
    modifies db`categories
    ensures db.Valid()
    ensures status == BAD_REQUEST <==> NameClash(old(db.categories), name, Some(id))
    ensures status == NOT_FOUND <==> !NameClash(old(db.categories), name, Some(id)) && id !in old(db.categories)
    ensures status == OK <==> !NameClash(old(db.categories), name, Some(id)) && id in old(db.categories)
    ensures status == OK ==>
      db.categories == old(db.categories)[id := Category(name, isActive.GetOr(old(db.categories)[id].isActive))]
    ensures status != OK ==> db.categories == old(db.categories)
  {
    if NameClash(db.categories, name, Some(id)) {
      return BAD_REQUEST;
    }
    if id !in db.categories {
      return NOT_FOUND;
    }
    db.ReplaceCategory(id, Category(name, isActive.GetOr(db.categories[id].isActive)));
    status := OK;
  }

  /**
    `deactivateCategory`: refused with 400 while a product is in the
    category, then 404 when missing; otherwise marked inactive. No product's
    category goes from active to inactive.
   */
  method DeactivateCategory(db: Db, id: Id) returns (status: int)
    requires db.Valid()
    modifies db`categories
    ensures db.Valid()
    ensures status == BAD_REQUEST <==> CategoryInUse(db.products, id)
    ensures status == NOT_FOUND <==> !CategoryInUse(db.products, id) && id !in old(db.categories)
    ensures status == OK <==> !CategoryInUse(db.products, id) && id in old(db.categories)
    ensures status == OK ==> db.categories == old(db.categories)[id := old(db.categories)[id].(isActive := false)]
    ensures status != OK ==> db.categories == old(db.categories)
    ensures forall pid :: pid in db.products && db.products[pid].category in old(db.categories) ==>
      var c := db.products[pid].category;
      c in db.categories && db.categories[c].isActive == old(db.categories)[c].isActive
  {
    if CategoryInUse(db.products, id) {
      return BAD_REQUEST;
    }
    if id !in db.categories {
      return NOT_FOUND;
    }
    db.categories := db.categories[id := db.categories[id].(isActive := false)];
    status := OK;
  }

  /** `activateCategory`: 404 when missing; otherwise marked active, with no reference check. */
  method ActivateCategory(db: Db, id: Id) returns (status: int)
    requires db.Valid()
    modifies db`categories
    ensures db.Valid()
    ensures status == OK <==> id in old(db.categories)
    ensures status == OK ==> db.categories == old(db.categories)[id := old(db.categories)[id].(isActive := true)]
    ensures status != OK ==> status == NOT_FOUND && db.categories == old(db.categories)
  {
    if id !in db.categories {
      return NOT_FOUND;
    }
    db.categories := db.categories[id := db.categories[id].(isActive := true)];
    status := OK;
  }
}
