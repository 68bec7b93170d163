/** Reference: exact-class checks, field lookup along the class hierarchy and
    the lookup of an asset with a subset of its properties. */
module References {
  import opened Wrappers
  import opened Json
  import opened Assets
  import opened Queries

  /** isReference(obj): the runtime class is exactly Reference. */
  predicate IsReference(cls: string)
    ensures IsReference(cls) ==> !IsReferenceList(cls)
  {
    cls == REFERENCE_CLASS
  }

  /** isReferenceList(obj): the runtime class is exactly ReferenceList. */
  predicate IsReferenceList(cls: string) {
    cls == REFERENCE_LIST_CLASS
  }

  /** isSimpleType(obj): neither of the two. */
  predicate IsSimpleType(cls: string)
    ensures cls == LABEL_CLASS || cls == PAGING_CLASS ==> IsSimpleType(cls)
  {
    !IsReference(cls) && !IsReferenceList(cls)
  }

  /** The classification follows the exact class: an object the seeded registry
      decodes under the "label" discriminator is a Label, hence a "simple type". */
  lemma LabelDecodesAsSimpleType(m: map<string, Json>)
    requires "_type" in m && m["_type"] == Str("label")
    requires Decode(SEEDED_REGISTRY, Obj(m)).Ok?
    ensures IsLabel(Decode(SEEDED_REGISTRY, Obj(m)).value)
    ensures IsSimpleType(Decode(SEEDED_REGISTRY, Obj(m)).value.cls)
  {
  }

  /** A declared field: its declared type (a class name) and whether reflection may read it. */
  datatype FieldDecl = FieldDecl(declaredType: string, accessible: bool)

  /** A class and the fields it declares itself. */
  datatype ClassDecl = ClassDecl(name: string, fields: map<string, FieldDecl>)

  /** A field found by name: the position of its declaring class in the hierarchy. */
  datatype Found = Found(level: nat, decl: FieldDecl)

  /** Does the field belong to the first class, from `from` on, that declares the name? */
  ghost predicate LowestDeclaration(h: seq<ClassDecl>, name: string, from: nat, f: Found) {
    && from <= f.level < |h|
    && name in h[f.level].fields && f.decl == h[f.level].fields[name]
    && forall j :: from <= j < f.level ==> name !in h[j].fields
  }

  /** _recursePropertyByName(name, h[i]): look in each superclass of h[i] in turn,
      ending with null at the root. h lists a class and its superclasses, lowest first. */
  function RecursePropertyByName(h: seq<ClassDecl>, name: string, i: nat): (r: Option<Found>)
    requires i < |h|
    ensures r.Some? ==> LowestDeclaration(h, name, i + 1, r.value)
    ensures r.None? ==> forall j :: i < j < |h| ==> name !in h[j].fields
    decreases |h| - i
  {
    if i + 1 < |h| then
      if name in h[i + 1].fields then Some(Found(i + 1, h[i + 1].fields[name]))
      else RecursePropertyByName(h, name, i + 1)
    else None
  }

  /** getFieldByName: the runtime class's own field, else the lowest superclass's. */
  function GetFieldByName(h: seq<ClassDecl>, name: string): (r: Option<Found>)
    requires |h| > 0
    ensures r.Some? ==> LowestDeclaration(h, name, 0, r.value)
    ensures r.None? <==> forall j :: 0 <= j < |h| ==> name !in h[j].fields
  {
    if name in h[0].fields then Some(Found(0, h[0].fields[name]))
    else RecursePropertyByName(h, name, 0)
  }

  /** An object seen through reflection: its class hierarchy (runtime class first)
      and, per class, the values of the fields that class declares that are not null. */
  datatype Instance<V> = Instance(hierarchy: seq<ClassDecl>, slots: seq<map<string, V>>)

  predicate WellFormed<V>(o: Instance<V>) {
    |o.hierarchy| > 0 && |o.slots| == |o.hierarchy|
  }

  /** getPropertyByName: the value of the field getFieldByName finds; null when there
      is no such field, when it holds null, or when reflection may not read it
      (the IllegalAccessException is swallowed). */
  function GetPropertyByName<V>(o: Instance<V>, name: string): (r: Option<V>)
    requires WellFormed(o)
    ensures (forall j :: 0 <= j < |o.hierarchy| ==> name !in o.hierarchy[j].fields) ==> r.None?
    ensures r.Some? ==> exists j :: (
      && 0 <= j < |o.hierarchy|
      && name in o.hierarchy[j].fields && o.hierarchy[j].fields[name].accessible
      && name in o.slots[j] && r.value == o.slots[j][name]
      && forall k :: 0 <= k < j ==> name !in o.hierarchy[k].fields)
    ensures forall j :: 0 <= j < |o.hierarchy| && name in o.hierarchy[j].fields
                        && (forall k :: 0 <= k < j ==> name !in o.hierarchy[k].fields) ==>
      r == if o.hierarchy[j].fields[name].accessible && name in o.slots[j] then Some(o.slots[j][name]) else None
  {
    match GetFieldByName(o.hierarchy, name)
    case None => None
    case Some(f) =>
      LowestIsUnique(o.hierarchy, name, f);
      if f.decl.accessible && name in o.slots[f.level] then Some(o.slots[f.level][name]) else None
  }

  /** Only one class can be the lowest to declare a name. */
  lemma LowestIsUnique(h: seq<ClassDecl>, name: string, f: Found)
    requires LowestDeclaration(h, name, 0, f)
    ensures forall j :: 0 <= j < |h| && name in h[j].fields && (forall k :: 0 <= k < j ==> name !in h[k].fields) ==>
              j == f.level
  {
  }

  /** isReference(propertyName): the found field's declared type is Reference
      (a missing field is a NullPointerException). */
  function IsReferenceProperty(h: seq<ClassDecl>, name: string): (r: Result<bool>)
    requires |h| > 0
    ensures r.Err? <==> GetFieldByName(h, name).None?
    ensures r.Ok? ==> r.value == IsReference(GetFieldByName(h, name).value.decl.declaredType)
  {
    match GetFieldByName(h, name)
    case None => Err(NullDereference)
    case Some(f) => Ok(f.decl.declaredType == REFERENCE_CLASS)
  }

  /** isReferenceList(propertyName). */
  function IsReferenceListProperty(h: seq<ClassDecl>, name: string): (r: Result<bool>)
    requires |h| > 0
    ensures r.Err? <==> GetFieldByName(h, name).None?
    ensures r.Ok? ==> r.value == IsReferenceList(GetFieldByName(h, name).value.decl.declaredType)
  {
    match GetFieldByName(h, name)
    case None => Err(NullDereference)
    case Some(f) => Ok(f.decl.declaredType == REFERENCE_LIST_CLASS)
  }

  /** isSimpleType(propertyName): the declared type is neither Reference nor ReferenceList. */
  function IsSimpleTypeProperty(h: seq<ClassDecl>, name: string): (r: Result<bool>)
    requires |h| > 0
    ensures r.Err? <==> GetFieldByName(h, name).None?
    ensures r.Ok? ==> r.value == IsSimpleType(GetFieldByName(h, name).value.decl.declaredType)
  {
    match GetFieldByName(h, name)
    case None => Err(NullDereference)
    case Some(f) => Ok(f.decl.declaredType != REFERENCE_CLASS && f.decl.declaredType != REFERENCE_LIST_CLASS)
  }

  /** The by-name checks agree with the by-class ones applied to the declared type:
      a field is simple exactly when it is neither a reference nor a list. */
  lemma SimplePropertyIsNeitherKind(h: seq<ClassDecl>, name: string)
    requires |h| > 0
    ensures IsSimpleTypeProperty(h, name).Err? <==> (forall j :: 0 <= j < |h| ==> name !in h[j].fields)
    ensures IsSimpleTypeProperty(h, name).Ok? ==>
      IsSimpleTypeProperty(h, name).value
        == (!IsReferenceProperty(h, name).value && !IsReferenceListProperty(h, name).value)
  {
  }

  /** A field redeclared in a subclass hides the superclass's: lookup stops at the first. */
  lemma {:induction false} SubclassFieldWins(h: seq<ClassDecl>, name: string, i: nat)
    requires 0 <= i < |h| && name in h[i].fields
    requires forall j :: 0 <= j < i ==> name !in h[j].fields
    ensures GetFieldByName(h, name) == Some(Found(i, h[i].fields[name]))
  {
    var r := GetFieldByName(h, name);
    assert r.Some?;
    assert LowestDeclaration(h, name, 0, r.value);
  }

  /** getAssetWithSubsetOfProperties: one search by id with page size 2; the first
      result, or null when there is none (a null result page is dereferenced). */
  function GetAssetWithSubsetOfProperties(
    search: Query -> Option<seq<Asset>>, typ: Option<string>, id: Option<string>, properties: seq<string>)
    : (r: Result<Option<Asset>>)
    ensures search(IdLookup(typ, id, properties)).None? <==> r.Err?
    ensures r.Ok? ==> var items := search(IdLookup(typ, id, properties)).value;
      && (r.value.None? <==> |items| == 0)
      && (r.value.Some? ==> r.value.value == items[0])
  {
    match search(IdLookup(typ, id, properties))
    case None => Err(NullDereference)
    case Some(items) => Ok(if |items| > 0 then Some(items[0]) else None)
  }
}
