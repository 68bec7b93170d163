/** MainObject: lazily populating an asset's context by a search on its id, and
    the memoised identity built from it. */
module MainObjects {
  import opened Wrappers
  import opened Assets
  import opened Queries
  import opened Identities

  /** The outcome of populateContext on a given name and context: the result
      (or the exception), the new name and context, and whether a search was
      issued. */
  datatype Populated = Populated(result: Result<bool>, name: Option<string>, context: seq<Asset>, searched: bool)

  /** The context is fetched only when neither the name nor a context is present. */
  predicate NeedsContext(name: Option<string>, context: seq<Asset>) {
    name.None? && |context| == 0
  }

  /** The search populateContext issues for the asset with this type and id. */
  function ContextQuery(typ: Option<string>, id: Option<string>): (q: Query)
    ensures q.types == [typ] && q.properties == [] && q.pageSize == 2 && !q.devGlossary
    ensures q.conditions == Some(IdCondition(id))
  {
    IdLookup(typ, id, [])
  }

  /** populateContext: with nothing present, search by id; no result leaves the
      asset as it is and answers false; the first result's name is copied, and
      its context too when it is a MainObject (otherwise the cast fails after
      the name has been copied); a null result page is dereferenced. */
  function PopulatedContext(answer: Query -> Option<seq<Asset>>, typ: Option<string>, id: Option<string>,
                            name: Option<string>, context: seq<Asset>): (p: Populated)
    ensures p.searched <==> NeedsContext(name, context)
    ensures !p.searched ==> p == Populated(Ok(true), name, context, false)
    ensures p.result == Ok(true) <==>
      (!NeedsContext(name, context) || (var r := answer(ContextQuery(typ, id));
        r.Some? && |r.value| > 0 && r.value[0].body.MainBody?))
    ensures p.result == Ok(false) <==>
      (NeedsContext(name, context) && answer(ContextQuery(typ, id)).Some? && |answer(ContextQuery(typ, id)).value| == 0)
    ensures p.result.Err? ==> p.result.error == NullDereference || p.result.error == ClassCast
    ensures p.result.Ok? && p.searched && p.result.value ==>
      var first := answer(ContextQuery(typ, id)).value[0];
      p.name == first.name && p.context == first.body.context
    ensures (p.result.Err? && p.result.error == NullDereference) || p.result == Ok(false) ==>
      p.name == name && p.context == context
    ensures p.result == Err(ClassCast) ==>
      && answer(ContextQuery(typ, id)).Some? && |answer(ContextQuery(typ, id)).value| > 0
      && !answer(ContextQuery(typ, id)).value[0].body.MainBody?
      && p.name == answer(ContextQuery(typ, id)).value[0].name && p.context == context
  {
    if !NeedsContext(name, context) then Populated(Ok(true), name, context, false)
    else match answer(ContextQuery(typ, id))
      case None => Populated(Err(NullDereference), name, context, true)
      case Some(items) =>
        if |items| == 0 then Populated(Ok(false), name, context, true)
        else
          var first := items[0];
          if first.body.MainBody? then Populated(Ok(true), first.name, first.body.context, true)
          else Populated(Err(ClassCast), first.name, context, true)
  }

  /** A successful population leaves nothing to fetch when the result had a name or a context. */
  lemma PopulateSettles(answer: Query -> Option<seq<Asset>>, typ: Option<string>, id: Option<string>,
                        name: Option<string>, context: seq<Asset>)
    requires var p := PopulatedContext(answer, typ, id, name, context);
      p.result == Ok(true) && !NeedsContext(p.name, p.context)
    ensures var p := PopulatedContext(answer, typ, id, name, context);
      PopulatedContext(answer, typ, id, p.name, p.context) == Populated(Ok(true), p.name, p.context, false)
  {
  }

  /** The identity getIdentity settles on when it is first asked for, if populating does not throw. */
  function FirstIdentity(answer: Query -> Option<seq<Asset>>, typ: Option<string>, id: Option<string>,
                         refName: Option<string>, name: Option<string>, context: seq<Asset>): (r: Result<Identity>)
    ensures var p := PopulatedContext(answer, typ, id, name, context);
      (r.Err? <==> p.result.Err?) && (r.Ok? ==> r.value == IdentityOf(p.context, typ, refName))
  {
    var p := PopulatedContext(answer, typ, id, name, context);
    if p.result.Err? then Err(p.result.error) else Ok(IdentityOf(p.context, typ, refName))
  }

  /** When the search finds nothing, the identity is still built, from the empty context. */
  lemma UnfoundAssetIdentity(answer: Query -> Option<seq<Asset>>, typ: Option<string>, id: Option<string>,
                             refName: Option<string>)
    requires answer(ContextQuery(typ, id)) == Some([])
    ensures FirstIdentity(answer, typ, id, refName, None, []) == Ok(IdentityOf([], typ, refName))
    ensures Render(FirstIdentity(answer, typ, id, refName, None, []).value) == Segment(typ, refName)
  {
    ContextFreeRendering(typ, refName);
  }

  /** A MainObject: Reference's _name, _type and _id, its own name and _context,
      and the identity cached by getIdentity. */
  class MainObject {
    var refName: Option<string>
    var typ: Option<string>
    var id: Option<string>
    var name: Option<string>
    var context: seq<Asset>
    var identity: Option<Identity>

    /** A freshly decoded object with no identity cached yet. */
    constructor (refName: Option<string>, typ: Option<string>, id: Option<string>,
                 name: Option<string>, context: seq<Asset>)
      ensures this.refName == refName && this.typ == typ && this.id == id
      ensures this.name == name && this.context == context && identity == None
    {
      this.refName := refName;
      this.typ := typ;
      this.id := id;
      this.name := name;
      this.context := context;
      identity := None;
    }

    /** populateContext(igcrest). */
    method PopulateContext(service: SearchService) returns (r: Result<bool>)
      modifies this`name, this`context, service`log
      ensures var p := PopulatedContext(service.answer, typ, id, old(name), old(context));
        && r == p.result && name == p.name && context == p.context
        && service.log == old(service.log) + (if p.searched then [ContextQuery(typ, id)] else [])
    {
      if name.None? && |context| == 0 {
        var found := service.Search(ContextQuery(typ, id));
        if found.None? {
          return Err(NullDereference);
        }
        var items := found.value;
        r := Ok(|items| > 0);
        if |items| > 0 {
          var first := items[0];
          name := first.name;
          if !first.body.MainBody? {
            return Err(ClassCast);
          }
          context := first.body.context;
        }
      } else {
        r := Ok(true);
      }
    }

    /** getIdentity(igcrest): computed once, from the populated context, the type and
        Reference's name, then returned unchanged; an exception while populating
        leaves it uncomputed. */
    method GetIdentity(service: SearchService) returns (r: Result<Identity>)
      modifies this`name, this`context, this`identity, service`log
      ensures old(identity).Some? ==>
        && r == Ok(old(identity).value) && identity == old(identity)
        && name == old(name) && context == old(context) && service.log == old(service.log)
      ensures old(identity).None? ==>
        var p := PopulatedContext(service.answer, typ, id, old(name), old(context));
        && r == FirstIdentity(service.answer, typ, id, refName, old(name), old(context))
        && identity == (if r.Ok? then Some(r.value) else None)
        && name == p.name && context == p.context
        && service.log == old(service.log) + (if p.searched then [ContextQuery(typ, id)] else [])
    {
      if identity.None? {
        var populated := PopulateContext(service);
        if populated.Err? {
          return Err(populated.error);
        }
        var built := NewIdentity(context, typ, refName);
        identity := Some(built);
      }
      r := Ok(identity.value);
    }
  }
}
