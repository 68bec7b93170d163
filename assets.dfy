/** Decoded assets and the type registry: how Jackson turns a payload into a
    Reference, a Label or a MainObject subclass, driven by the "_type"
    discriminator (Reference.java's @JsonTypeInfo with defaultImpl=Reference). */
module Assets {
  import opened Wrappers
  import opened Json
  import opened Pagings

  const REFERENCE_CLASS: string := "com.ibm.infosvr.restclient.model.Reference"
  const REFERENCE_LIST_CLASS: string := "com.ibm.infosvr.restclient.model.ReferenceList"
  const LABEL_CLASS: string := "com.ibm.infosvr.restclient.model.Label"
  const PAGING_CLASS: string := "com.ibm.infosvr.restclient.model.Paging"

  /** What a registered class holds beyond Reference's four properties. */
  datatype Kind =
    | PlainReference   // Reference itself, or a subclass adding nothing modelled here
    | MainObjectKind   // a subclass of MainObject: "_context" and "name"
    | LabelKind        // Label: "_context", "name" and "description"
    | NotAReference    // a registered class that is not a Reference subtype (Paging)

  /** A registered Java class: its name and what it decodes. */
  datatype Shape = Shape(cls: string, kind: Kind)

  /** The discriminator-to-class table registerPOJO builds. */
  type Registry = map<string, Shape>

  const REFERENCE_SHAPE: Shape := Shape(REFERENCE_CLASS, PlainReference)

  /** The two registrations the client's constructor makes. */
  const SEEDED_REGISTRY: Registry :=
    map["paging" := Shape(PAGING_CLASS, NotAReference), "label" := Shape(LABEL_CLASS, LabelKind)]

  /** What a ReferenceList-typed property holds once read: null, or a page of
      items with its paging cursor. */
  datatype Page = Page(items: seq<Asset>, paging: Cursor)

  /** The properties a Reference subclass adds: MainObject's and Label's. */
  datatype Body =
    | Plain
    | MainBody(
        context: seq<Asset>, theName: Option<string>,
        shortDescription: Option<string>, longDescription: Option<string>,
        createdBy: Option<string>, modifiedBy: Option<string>,
        labels: Option<Page>, stewards: Option<Page>, assignedToTerms: Option<Page>,
        implementsRules: Option<Page>, governedByRules: Option<Page>)
    | LabelBody(context: seq<Asset>, theName: Option<string>, description: Option<string>,
                labeledAssets: Option<Page>)

  /** A decoded object: its exact runtime class, Reference's _name, _type, _id
      and _url, and the fields its class adds. */
  datatype Asset = Asset(
    cls: string,
    name: Option<string>,
    typ: Option<string>,
    id: Option<string>,
    url: Option<string>,
    body: Body)

  /** Label.isLabel(obj): the exact runtime class is Label. */
  predicate IsLabel(a: Asset)
    ensures IsLabel(a) ==> a.cls != REFERENCE_CLASS && a.cls != REFERENCE_LIST_CLASS
  {
    a.cls == LABEL_CLASS
  }

  /** The class Jackson instantiates for a discriminator: the registered one when it
      is a Reference subtype, otherwise the default implementation, Reference. */
  function ShapeFor(registry: Registry, typeId: Option<string>): (s: Shape)
    ensures s == REFERENCE_SHAPE || (typeId.Some? && typeId.value in registry && s == registry[typeId.value])
    ensures s.kind != NotAReference
    ensures typeId.Some? && typeId.value in registry && registry[typeId.value].kind != NotAReference
            ==> s == registry[typeId.value]
  {
    if typeId.Some? && typeId.value in registry && registry[typeId.value].kind != NotAReference
    then registry[typeId.value]
    else REFERENCE_SHAPE
  }

  const REFERENCE_KEYS: set<string> := {"_name", "_type", "_id", "_url"}

  /** MainObject's ReferenceList properties. */
  const MAIN_LIST_KEYS: set<string> :=
    {"labels", "stewards", "assigned_to_terms", "implements_rules", "governed_by_rules"}

  /** MainObject's properties beyond Reference's. */
  const MAIN_KEYS: set<string> :=
    {"_context", "name", "short_description", "long_description",
     "created_by", "created_on", "modified_by", "modified_on"} + MAIN_LIST_KEYS

  /** Label's properties beyond Reference's. */
  const LABEL_KEYS: set<string> := {"_context", "name", "description", "labeled_assets"}

  /** The properties a class of the given kind reads; all others are ignored. */
  function KnownKeys(kind: Kind): (keys: set<string>)
    ensures REFERENCE_KEYS <= keys
    ensures kind == MainObjectKind ==> MAIN_KEYS <= keys
    ensures kind == LabelKind ==> LABEL_KEYS <= keys
  {
    match kind
    case MainObjectKind => REFERENCE_KEYS + MAIN_KEYS
    case LabelKind => REFERENCE_KEYS + LABEL_KEYS
    case _ => REFERENCE_KEYS
  }

  /** Reading one object as a Reference (or the registered subtype its "_type" names). */
  function Decode(registry: Registry, j: Json): (r: Result<Asset>)
    ensures r.Ok? ==> j.Obj?
    ensures j.Obj? ==> var m := j.fields;
      r.Ok? <==>
        && TextField(m, "_type").Ok? && TextField(m, "_name").Ok?
        && TextField(m, "_id").Ok? && TextField(m, "_url").Ok?
        && BodyFor(registry, ShapeFor(registry, TextField(m, "_type").value).kind, m).Ok?
    ensures r.Ok? ==> var m := j.fields; var a := r.value; var typ := TextField(m, "_type").value;
      && a.cls == ShapeFor(registry, typ).cls
      && a.typ == typ
      && a.name == TextField(m, "_name").value
      && a.id == TextField(m, "_id").value
      && a.url == TextField(m, "_url").value
      && a.body == BodyFor(registry, ShapeFor(registry, typ).kind, m).value
    decreases j, 3
  {
    match j
    case Obj(m) =>
      var typ :- TextField(m, "_type");
      var shape := ShapeFor(registry, typ);
      var name :- TextField(m, "_name");
      var id :- TextField(m, "_id");
      var url :- TextField(m, "_url");
      var body :- BodyFor(registry, shape.kind, m);
      Ok(Asset(shape.cls, name, typ, id, url, body))
    case _ => Err(DecodeFailure)
  }

  /** The properties beyond Reference's that the selected class reads: a MainObject's,
      a Label's, or none for a plain Reference. */
  function BodyFor(registry: Registry, kind: Kind, m: map<string, Json>): (r: Result<Body>)
    ensures kind == MainObjectKind ==> r == DecodeMainBody(registry, m)
    ensures kind == LabelKind ==> r == DecodeLabelBody(registry, m)
    ensures kind != MainObjectKind && kind != LabelKind ==> r == Ok(Plain)
    decreases Obj(m), 2
  {
    match kind
    case MainObjectKind => DecodeMainBody(registry, m)
    case LabelKind => DecodeLabelBody(registry, m)
    case _ => Ok(Plain)
  }

  /** MainObject's own properties: absent ones keep their defaults (an empty
      context, null otherwise); the audit dates must be null, a number or text. */
  function DecodeMainBody(registry: Registry, m: map<string, Json>): (r: Result<Body>)
    ensures r.Ok? <==>
      && DecodeContext(registry, m).Ok?
      && TextField(m, "name").Ok? && TextField(m, "short_description").Ok?
      && TextField(m, "long_description").Ok?
      && TextField(m, "created_by").Ok? && TextField(m, "modified_by").Ok?
      && DateField(m, "created_on").Ok? && DateField(m, "modified_on").Ok?
      && ListField(registry, m, "labels").Ok? && ListField(registry, m, "stewards").Ok?
      && ListField(registry, m, "assigned_to_terms").Ok? && ListField(registry, m, "implements_rules").Ok?
      && ListField(registry, m, "governed_by_rules").Ok?
    ensures r.Ok? ==> var b := r.value;
      && b.MainBody?
      && b.context == DecodeContext(registry, m).value
      && b.theName == TextField(m, "name").value
      && b.shortDescription == TextField(m, "short_description").value
      && b.longDescription == TextField(m, "long_description").value
      && b.createdBy == TextField(m, "created_by").value
      && b.modifiedBy == TextField(m, "modified_by").value
      && b.labels == ListField(registry, m, "labels").value
      && b.stewards == ListField(registry, m, "stewards").value
      && b.assignedToTerms == ListField(registry, m, "assigned_to_terms").value
      && b.implementsRules == ListField(registry, m, "implements_rules").value
      && b.governedByRules == ListField(registry, m, "governed_by_rules").value
    decreases Obj(m), 1
  {
    var context :- DecodeContext(registry, m);
    var theName :- TextField(m, "name");
    var shortDescription :- TextField(m, "short_description");
    var longDescription :- TextField(m, "long_description");
    var createdBy :- TextField(m, "created_by");
    var modifiedBy :- TextField(m, "modified_by");
    var _ :- DateField(m, "created_on");
    var _ :- DateField(m, "modified_on");
    var labels :- ListField(registry, m, "labels");
    var stewards :- ListField(registry, m, "stewards");
    var assignedToTerms :- ListField(registry, m, "assigned_to_terms");
    var implementsRules :- ListField(registry, m, "implements_rules");
    var governedByRules :- ListField(registry, m, "governed_by_rules");
    Ok(MainBody(context, theName, shortDescription, longDescription, createdBy, modifiedBy,
                labels, stewards, assignedToTerms, implementsRules, governedByRules))
  }

  /** Label's own properties. */
  function DecodeLabelBody(registry: Registry, m: map<string, Json>): (r: Result<Body>)
    ensures r.Ok? <==>
      && DecodeContext(registry, m).Ok? && TextField(m, "name").Ok? && TextField(m, "description").Ok?
      && ListField(registry, m, "labeled_assets").Ok?
    ensures r.Ok? ==> var b := r.value;
      && b.LabelBody?
      && b.context == DecodeContext(registry, m).value
      && b.theName == TextField(m, "name").value
      && b.description == TextField(m, "description").value
      && b.labeledAssets == ListField(registry, m, "labeled_assets").value
    decreases Obj(m), 1
  {
    var context :- DecodeContext(registry, m);
    var theName :- TextField(m, "name");
    var description :- TextField(m, "description");
    var labeledAssets :- ListField(registry, m, "labeled_assets");
    Ok(LabelBody(context, theName, description, labeledAssets))
  }

  /** A java.util.Date property: null, a number of milliseconds or a date text. */
  function DateField(m: map<string, Json>, key: string): (r: Result<()>)
    ensures r.Err? <==> key in m && !(m[key].Null? || m[key].Num? || m[key].Str?)
  {
    if key !in m || m[key].Null? || m[key].Num? || m[key].Str? then Ok(()) else Err(DecodeFailure)
  }

  /** The "_context" array: absent means the field keeps its empty default. */
  function DecodeContext(registry: Registry, m: map<string, Json>): (r: Result<seq<Asset>>)
    ensures "_context" !in m ==> r == Ok([])
    ensures "_context" in m ==>
      (r.Ok? <==> m["_context"].Arr? && DecodeAll(registry, m["_context"].elems).Ok?)
    ensures r.Ok? && "_context" in m ==> r.value == DecodeAll(registry, m["_context"].elems).value
    decreases Obj(m), 0
  {
    if "_context" !in m then Ok([])
    else match m["_context"]
      case Arr(es) => DecodeAll(registry, es)
      case _ => Err(DecodeFailure)
  }

  /** A ReferenceList property: absent or null is null, an object is read as a
      ReferenceList, anything else cannot be read. */
  function ListField(registry: Registry, m: map<string, Json>, key: string): (r: Result<Option<Page>>)
    ensures key !in m || m[key].Null? ==> r == Ok(None)
    ensures key in m && m[key].Obj? ==>
      r == (match DecodePage(registry, m[key]) case Ok(p) => Ok(Some(p)) case Err(e) => Err(e))
    ensures r.Err? ==> key in m && !m[key].Null?
    decreases Obj(m), 0
  {
    if key !in m then Ok(None)
    else match m[key]
      case Null => Ok(None)
      case Obj(_) =>
        var p :- DecodePage(registry, m[key]);
        Ok(Some(p))
      case _ => Err(DecodeFailure)
  }

  /** Reading a ReferenceList: "items" is an array of References, "paging" a Paging;
      absent ones keep their defaults, an empty list and a default Paging. */
  function DecodePage(registry: Registry, j: Json): (r: Result<Page>)
    ensures j.Obj? && "items" !in j.fields && "paging" !in j.fields ==> r == Ok(Page([], DefaultCursor()))
    ensures r.Ok? ==> j.Obj?
    ensures j.Obj? ==> var m := j.fields;
      (r.Ok? <==> && ("items" in m ==> m["items"].Arr? && DecodeAll(registry, m["items"].elems).Ok?)
                  && ("paging" in m ==> DecodeCursor(m["paging"]).Ok?))
    ensures r.Ok? ==> var m := j.fields;
      && r.value.items == (if "items" in m then DecodeAll(registry, m["items"].elems).value else [])
      && r.value.paging == (if "paging" in m then DecodeCursor(m["paging"]).value else DefaultCursor())
    decreases j, 1
  {
    match j
    case Obj(m) =>
      var items :- if "items" !in m then Ok([]) else
        match m["items"]
        case Arr(es) => DecodeAll(registry, es)
        case _ => Err(DecodeFailure);
      var paging :- if "paging" in m then DecodeCursor(m["paging"]) else Ok(DefaultCursor());
      Ok(Page(items, paging))
    case _ => Err(DecodeFailure)
  }

  /** Reading each element of an array as a Reference, in order. */
  function DecodeAll(registry: Registry, es: seq<Json>): (r: Result<seq<Asset>>)
    ensures r.Ok? ==> |r.value| == |es|
    ensures r.Ok? <==> forall i :: 0 <= i < |es| ==> Decode(registry, es[i]).Ok?
    ensures r.Ok? ==> forall i :: 0 <= i < |es| ==> r.value[i] == Decode(registry, es[i]).value
    decreases es
  {
    if es == [] then Ok([])
    else
      match Decode(registry, es[0])
      case Err(e) => Err(e)
      case Ok(a) =>
        match DecodeAll(registry, es[1..])
        case Err(e) => Err(e)
        case Ok(rest) =>
          assert forall i :: 1 <= i < |es| ==> es[i] == es[1..][i - 1];
          Ok([a] + rest)
  }

  /** An object whose "_type" is not registered (or names a class that is not a
      Reference) reads as a plain Reference carrying the four common properties. */
  lemma UnregisteredTypeDecodesAsReference(registry: Registry, m: map<string, Json>)
    requires "_type" in m && m["_type"].Str?
    requires m["_type"].s !in registry || registry[m["_type"].s].kind == NotAReference
    requires forall k :: k in REFERENCE_KEYS && k in m ==> m[k].Str?
    ensures Decode(registry, Obj(m)).Ok?
    ensures var a := Decode(registry, Obj(m)).value;
      && a.cls == REFERENCE_CLASS && a.body == Plain
      && a.typ == Some(m["_type"].s)
      && a.name == (if "_name" in m then Some(m["_name"].s) else None)
      && a.id == (if "_id" in m then Some(m["_id"].s) else None)
      && a.url == (if "_url" in m then Some(m["_url"].s) else None)
  {
  }

  /** The seeded "paging" registration does not make a Reference payload decode as Paging. */
  lemma PagingDiscriminatorDecodesAsReference(m: map<string, Json>)
    requires "_type" in m && m["_type"] == Str("paging")
    requires Decode(SEEDED_REGISTRY, Obj(m)).Ok?
    ensures Decode(SEEDED_REGISTRY, Obj(m)).value.cls == REFERENCE_CLASS
  {
  }

  /** The kind of class an object's discriminator selects (Reference when it is unreadable). */
  function SelectedKind(registry: Registry, m: map<string, Json>): Kind {
    match TextField(m, "_type")
    case Ok(typ) => ShapeFor(registry, typ).kind
    case Err(_) => PlainReference
  }

  /** A relationship property the selected class declares must hold null or an
      object; anything else (an array, say) makes the whole object unreadable. */
  lemma MalformedRelationshipIsUnreadable(registry: Registry, m: map<string, Json>, key: string)
    requires var kind := SelectedKind(registry, m);
      (kind == MainObjectKind && key in MAIN_LIST_KEYS) || (kind == LabelKind && key == "labeled_assets")
    requires key in m && !m[key].Null? && !m[key].Obj?
    ensures Decode(registry, Obj(m)).Err?
  {
    assert ListField(registry, m, key).Err?;
  }

  /** A property the chosen class does not declare is ignored. */
  lemma DecodeIgnoresUnknownProperty(registry: Registry, m: map<string, Json>, key: string, v: Json)
    requires key !in KnownKeys(SelectedKind(registry, m))
    ensures Decode(registry, Obj(m[key := v])) == Decode(registry, Obj(m))
  {
    var m' := m[key := v];
    var kind := SelectedKind(registry, m);
    assert TextField(m', "_type") == TextField(m, "_type");
    forall k | k in REFERENCE_KEYS ensures TextField(m', k) == TextField(m, k) {
    }
    if kind == MainObjectKind {
      MainBodyIgnoresUnknown(registry, m, key, v);
    } else if kind == LabelKind {
      LabelBodyIgnoresUnknown(registry, m, key, v);
    }
  }

  /** Updating a property other than `k` changes none of the readers of `k`. */
  lemma FieldReadersAgree(registry: Registry, m: map<string, Json>, key: string, v: Json, k: string)
    requires k != key
    ensures TextField(m[key := v], k) == TextField(m, k)
    ensures DateField(m[key := v], k) == DateField(m, k)
    ensures ListField(registry, m[key := v], k) == ListField(registry, m, k)
  {
  }

  lemma MainBodyIgnoresUnknown(registry: Registry, m: map<string, Json>, key: string, v: Json)
    requires key !in MAIN_KEYS
    ensures DecodeMainBody(registry, m[key := v]) == DecodeMainBody(registry, m)
  {
    var m' := m[key := v];
    assert DecodeContext(registry, m') == DecodeContext(registry, m);
    forall k | k in MAIN_KEYS
      ensures TextField(m', k) == TextField(m, k) && DateField(m', k) == DateField(m, k)
      ensures ListField(registry, m', k) == ListField(registry, m, k)
    {
      FieldReadersAgree(registry, m, key, v, k);
    }
  }

  lemma LabelBodyIgnoresUnknown(registry: Registry, m: map<string, Json>, key: string, v: Json)
    requires key !in LABEL_KEYS
    ensures DecodeLabelBody(registry, m[key := v]) == DecodeLabelBody(registry, m)
  {
    var m' := m[key := v];
    assert DecodeContext(registry, m') == DecodeContext(registry, m);
    forall k | k in LABEL_KEYS
      ensures TextField(m', k) == TextField(m, k) && ListField(registry, m', k) == ListField(registry, m, k)
    {
      FieldReadersAgree(registry, m, key, v, k);
    }
  }
}
