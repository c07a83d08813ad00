/**
  The color controller. Names and hex codes are trimmed when stored. Create
  refuses a name that any stored name starts with (up to case); update
  refuses only a whole-name clash. Delete is unguarded, deactivate is
  refused while a variant uses the color.
 */
module ColorsController {
  import opened Common
  import opened Text
  import opened ProductModel
  import opened Database

  /** The unanchored `^name` lookup of create: some stored name starts with `name`, up to case. */
  predicate PrefixTaken(cs: map<Id, Color>, name: string) {
    exists cid :: cid in cs && StartsWithIgnoringCase(cs[cid].name, name)
  }

  /** The anchored `^name$` lookup of update, skipping `except`. */
  predicate NameClash(cs: map<Id, Color>, name: string, except: Option<Id>) {
    exists cid :: cid in cs && Some(cid) != except && SameIgnoringCase(cs[cid].name, name)
  }

  /** What the unique index on `name` refuses. */
  predicate NameStored(cs: map<Id, Color>, name: string, except: Option<Id>) {
    exists cid :: cid in cs && Some(cid) != except && cs[cid].name == name
  }

  function TrimHex(hex: Option<string>): Option<string> {
    if hex.Some? then Some(Trim(hex.value)) else None
  }

  /** Every name update refuses, create refuses too. */
  lemma PrefixCoversClash(cs: map<Id, Color>, name: string)
    requires NameClash(cs, name, None)
    ensures PrefixTaken(cs, name)
  {
    var cid :| cid in cs && SameIgnoringCase(cs[cid].name, name);
    SameIgnoringCaseIsPrefix(cs[cid].name, name);
  }

  /** ... and more: with "Redwood" stored, "red" cannot be created. */
  lemma ShorterNameRefused()
    ensures PrefixTaken(map[0 := Color("Redwood", None, true)], "red")
    ensures !NameClash(map[0 := Color("Redwood", None, true)], "red", None)
  {
    var cs := map[0 := Color("Redwood", None, true)];
    assert LowerStr("red") == "red";
    assert LowerStr("Redwood") == "redwood";
    assert StartsWithIgnoringCase(cs[0].name, "red");
  }

  /**
    `createColor`: a name some stored name starts with is 400; an empty
    trimmed name fails `required` and is 400; a trimmed name already stored
    is 400; otherwise the trimmed color is stored under a fresh id.
   */
  method CreateColor(db: Db, name: string, hex: Option<string>, isActive: Option<bool>) returns (status: int)
    requires db.Valid()
    modifies db`colors, db`nextId
    ensures db.Valid()
    ensures status == CREATED || status == BAD_REQUEST
    ensures status == CREATED <==>
      !PrefixTaken(old(db.colors), name) && Trim(name) != [] && !NameStored(old(db.colors), Trim(name), None)
    ensures status == CREATED ==>
      db.colors == old(db.colors)[old(db.nextId) := Color(Trim(name), TrimHex(hex), isActive.GetOr(true))]
    ensures status == BAD_REQUEST ==> db.colors == old(db.colors)
    ensures db.nextId == old(db.nextId) + (if status == CREATED then 1 else 0)
  {
    if PrefixTaken(db.colors, name) {
      return BAD_REQUEST;
    }
    var trimmed := Trim(name);
    if trimmed == [] || NameStored(db.colors, trimmed, None) {
      return BAD_REQUEST;
    }
    assert forall cid :: cid in db.colors ==> db.colors[cid].name != trimmed;
    var _ := db.AddColor(Color(trimmed, TrimHex(hex), isActive.GetOr(true)));
    status := CREATED;
  }

  /** `deleteColor`: 404 when missing; otherwise removed, whether or not a variant still uses it. */
  method DeleteColor(db: Db, id: Id) returns (status: int)
    requires db.Valid()
    modifies db`colors
    ensures db.Valid()
    ensures status == OK <==> id in old(db.colors)
    ensures status == OK ==> db.colors == old(db.colors) - {id}
    ensures status != OK ==> status == NOT_FOUND && db.colors == old(db.colors)
  {
    if id !in db.colors {
      return NOT_FOUND;
    }
    db.colors := db.colors - {id};
    status := OK;
  }

  /**
    `updateColor`: a name taken up to case by another color is 400, a
    missing id 404, a trimmed name stored by another color 400; otherwise the
    trimmed name is set, and the hex code and flag when given. No validators
    run, so the name may become empty.
   */
  method UpdateColor(db: Db, id: Id, name: string, hex: Option<string>, isActive: Option<bool>) returns (status: int)
    requires db.Valid()
    modifies db`colors
    ensures db.Valid()
    ensures status == OK || status == BAD_REQUEST || status == NOT_FOUND
    ensures status == NOT_FOUND <==> !NameClash(old(db.colors), name, Some(id)) && id !in old(db.colors)
    ensures status == OK <==>
      && !NameClash(old(db.colors), name, Some(id)) && id in old(db.colors)
      && !NameStored(old(db.colors), Trim(name), Some(id))
    ensures status == OK ==>
      var c := old(db.colors)[id];
      db.colors == old(db.colors)[id := Color(Trim(name), if hex.Some? then TrimHex(hex) else c.hex, isActive.GetOr(c.isActive))]
    ensures status != OK ==> db.colors == old(db.colors)
  {
    if NameClash(db.colors, name, Some(id)) {
      return BAD_REQUEST;
    }
    if id !in db.colors {
      return NOT_FOUND;
    }
    var trimmed := Trim(name);
    if NameStored(db.colors, trimmed, Some(id)) {
      return BAD_REQUEST;
    }
    var c := db.colors[id];
    db.ReplaceColor(id, Color(trimmed, if hex.Some? then TrimHex(hex) else c.hex, isActive.GetOr(c.isActive)));
    status := OK;
  }

  /**
    `deactivateColor`: refused with 400 while a variant uses the color, then
    404 when missing; otherwise marked inactive. No variant's color goes from
    active to inactive.
   */
  method DeactivateColor(db: Db, id: Id) returns (status: int)
    requires db.Valid()
    modifies db`colors
    ensures db.Valid()
    ensures status == BAD_REQUEST <==> ColorInUse(db.products, id)
    ensures status == NOT_FOUND <==> !ColorInUse(db.products, id) && id !in old(db.colors)
    ensures status == OK <==> !ColorInUse(db.products, id) && id in old(db.colors)
    ensures status == OK ==> db.colors == old(db.colors)[id := old(db.colors)[id].(isActive := false)]
    ensures status != OK ==> db.colors == old(db.colors)
    ensures forall pid, i :: pid in db.products && 0 <= i < |db.products[pid].variants| && db.products[pid].variants[i].color in old(db.colors) ==>
      var c := db.products[pid].variants[i].color;
      c in db.colors && db.colors[c].isActive == old(db.colors)[c].isActive
  {
    if ColorInUse(db.products, id) {
      return BAD_REQUEST;
    }
    if id !in db.colors {
      return NOT_FOUND;
    }
    db.colors := db.colors[id := db.colors[id].(isActive := false)];
    status := OK;
  }

  /** `activateColor`: 404 when missing; otherwise marked active. */
  method ActivateColor(db: Db, id: Id) returns (status: int)
    requires db.Valid()
    modifies db`colors
    ensures db.Valid()
    ensures status == OK <==> id in old(db.colors)
    ensures status == OK ==> db.colors == old(db.colors)[id := old(db.colors)[id].(isActive := true)]
    ensures status != OK ==> status == NOT_FOUND && db.colors == old(db.colors)
  {
    if id !in db.colors {
      return NOT_FOUND;
    }
    db.colors := db.colors[id := db.colors[id].(isActive := true)];
    status := OK;
  }
}
