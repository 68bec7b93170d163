# igc-restclient core, modelled in Dafny

This project models the sequential core of IBM's `igc-restclient`, the Java client for the Information Governance Catalog REST API:

- **Search-condition compiler.**
  - A leaf condition (`IGCSearchCondition`) compiles to a JSON object whose keys are present or absent by rule.
  - A condition set (`IGCSearchConditionSet`) holds leaves, a join operator and at most one nested set.
  - Compiling a set writes the nested set's object into the set's own `conditions` array.
- **Paging cursor and relationship list** (`Paging`, `ReferenceList`).
  - The cursor's `hasMore` test and its synthetic "full" cursor.
  - A list whose `getAllPages` replaces its items and cursor wholesale.
- **Session and pagination in `IGCRestClient`.**
  - Header selection between cookies and Basic authentication, and cookie replacement.
  - The constructor's probe search, which decides whether workflow is enabled.
  - `getNextPage`'s URL work: the draft-workflow marker, and the relationship attribute of asset routes.
  - The two `getAllPages` drains.
- **Semantic identity** (`Identity`, `MainObject.populateContext`/`getIdentity`): the rendered identity string, equality of identities, lazy context population through one search, and the memoised identity.
- **Type classification and reflection in `Reference`**:
  - the `_type` fallback to `Reference`;
  - the exact-class checks;
  - field lookup up a class chain;
  - `getAssetWithSubsetOfProperties`.

The modules follow the Java files:

| File | Module | What it models |
|---|---|---|
| `search_condition.dfy` | `SearchConditions` | Leaf conditions |
| `search_condition_set.dfy` | `SearchConditionSets` | Condition sets |
| `paging.dfy` | `Pagings` | `Paging` |
| `reference_list.dfy` | `ReferenceLists` | `ReferenceList` |
| `identity.dfy` | `Identities` | `Identity` |
| `main_object.dfy` | `MainObjects` | `MainObject` |
| `reference.dfy` | `References` | `Reference` |
| `session.dfy` | `Sessions` | Headers, cookies and one HTTP exchange |
| `client.dfy` | `Client` | The rest of `IGCRestClient` |

Shared modules:

- `wrappers.dfy`: `Option`, `Result` and the Java exceptions as error values.
- `text.dfy`: `String.indexOf`, `substring`, `trim`, and the rendering of `null` in concatenation.
- `json.dfy`: the slice of Jackson's tree model that is used, including its reading of text as an int.
- `assets.dfy`: decoded assets, pages read as `ReferenceList`s, and the type registry.
- `queries.dfy`: the search record and the search oracle.
- `seqs.dfy`: flattening and reversing sequences of pages.

How the Java is represented:

- **Null values.** A Java `null` is `None`. String concatenation renders it as the text `"null"` (`Text.NullText`).
- **JSON nodes.** A `JsonNode` variable can hold a Java null, a `MissingNode` or a present value (`Json.Node`).
- **Exceptions.** Runtime exceptions are `Err` values: `NullPointerException`, `ClassCastException`, `StringIndexOutOfBoundsException` and a failed HTTP exchange.
- **The transport.** The HTTP transport is a function from requests to responses.
- **Sessions.** The session state is a value recording every request sent (`Sessions.Session`).
- **The drains.** The recursive drains carry a fuel bound that the methods require to be sufficient. The fuel-monotonicity lemmas show the bound does not change a result that does not run out.

Two behaviours of the code worth noting:

- **Page order.** `getAllPages(ArrayList, Paging)` puts each newly fetched page before the items gathered so far (IGCRestClient.java, lines 319-321). The result therefore lists pages in reverse fetch order, with each page's own order kept (`Client.DrainListReversesPages`). It is not in server order.
- **When to stop.** Both drains decide whether to go on from the `next` URL and the size of the fetched page alone. They never consult `hasMore()` (`Client.DrainListIgnoresCounts`).

## Model

| member | source | states |
|---|---|---|
| SearchConditions.WithValue | src/main/java/com/ibm/infosvr/restclient/search/IGCSearchCondition.java:17-21 | property, operator and value are the arguments; negated stays null |
| SearchConditions.WithNegation | src/main/java/com/ibm/infosvr/restclient/search/IGCSearchCondition.java:23-27 | property, operator and negated are the arguments; value stays null |
| SearchConditions.WithValueAndNegation | src/main/java/com/ibm/infosvr/restclient/search/IGCSearchCondition.java:29-34 | all four fields are the arguments, as the getters return them |
| SearchConditions.ConditionObject | src/main/java/com/ibm/infosvr/restclient/search/IGCSearchCondition.java:57-67 | the object always has "property" and "operator" (a null becomes JSON null); "value" is present iff value is non-null and then equals it; "negated" likewise; no other keys |
| SearchConditions.ConditionObjectInjective | src/main/java/com/ibm/infosvr/restclient/search/IGCSearchCondition.java:57-67 | two conditions with the same compiled object are the same condition |
| SearchConditions.WithValueHasNoNegated | src/main/java/com/ibm/infosvr/restclient/search/IGCSearchCondition.java:17-21 | the (property, operator, value) constructor never yields a "negated" key |
| SearchConditions.WithNegationHasNoValue | src/main/java/com/ibm/infosvr/restclient/search/IGCSearchCondition.java:23-27 | the (property, operator, negated) constructor never yields a "value" key |
| SearchConditionSets.SetObject | src/main/java/com/ibm/infosvr/restclient/search/IGCSearchConditionSet.java:67-72 | no leaves gives the empty object; otherwise exactly "conditions" (the array) and "operator" (the join) |
| SearchConditionSets.CompileChain | src/main/java/com/ibm/infosvr/restclient/search/IGCSearchConditionSet.java:67-78 | compiling a chain of nested sets keeps the chain's length and every set's join; each nested object is a snapshot of the nested set's compiled value (see "## Left out") |
| SearchConditionSets.EmptySetCompilesToEmptyObject | src/main/java/com/ibm/infosvr/restclient/search/IGCSearchConditionSet.java:67-72 | a set with no leaves and no nested set compiles to the empty object and is left unchanged |
| SearchConditionSets.FlatSetCompile | src/main/java/com/ibm/infosvr/restclient/search/IGCSearchConditionSet.java:69-72 | with leaves and no nested set: "conditions" holds the leaves in insertion order and "operator" is the join |
| SearchConditionSets.NestedSetCompile | src/main/java/com/ibm/infosvr/restclient/search/IGCSearchConditionSet.java:73-76 | the nested set's object is appended after the leaves, both in the result and in the set's own array; "operator" stays the outer join |
| SearchConditionSets.NestedWithoutLeavesFails | src/main/java/com/ibm/infosvr/restclient/search/IGCSearchConditionSet.java:73-75 | a nested set under a set with no leaves is a null dereference (after the nested compile has run) |
| SearchConditionSets.LeafChainUnchanged | src/main/java/com/ibm/infosvr/restclient/search/IGCSearchConditionSet.java:67-72 | compiling a set without a nested set leaves its array as it was |
| SearchConditionSets.CompileTwiceRepeatsNested | src/main/java/com/ibm/infosvr/restclient/search/IGCSearchConditionSet.java:70-75 | a second compile lists the nested set twice, because the first compile appended it to the set's own array |
| SearchConditionSets.NestingScenario | src/main/java/com/ibm/infosvr/restclient/search/IGCSearchConditionSet.java:67-78 | an "and" set with one leaf around an "or" set with one leaf compiles to [leaf, nested object] under "and" |
| SearchConditionSets.ConditionSet.constructor | src/main/java/com/ibm/infosvr/restclient/search/IGCSearchConditionSet.java:17-19 | a new set has no leaves, join "and" and no nested set, so it is a chain of one |
| SearchConditionSets.ConditionSet.WithCondition | src/main/java/com/ibm/infosvr/restclient/search/IGCSearchConditionSet.java:21-24 | a set built from one condition holds exactly its compiled object, join "and", and no nested set |
| SearchConditionSets.ConditionSet.Size | src/main/java/com/ibm/infosvr/restclient/search/IGCSearchConditionSet.java:58-60 | size() is the number of entries in the conditions array |
| SearchConditionSets.ConditionSet.AddCondition | src/main/java/com/ibm/infosvr/restclient/search/IGCSearchConditionSet.java:31-33 | the compiled leaf is appended at the end and size() grows by exactly 1 |
| SearchConditionSets.ConditionSet.SetMatchAnyCondition | src/main/java/com/ibm/infosvr/restclient/search/IGCSearchConditionSet.java:40-42 | true sets the join to "or", false to "and"; the last call wins |
| SearchConditionSets.ConditionSet.AddNestedConditionSet | src/main/java/com/ibm/infosvr/restclient/search/IGCSearchConditionSet.java:49-51 | the single nested slot is replaced by the argument, in any order of building; a null argument empties it |
| SearchConditionSets.NestTopDown | src/main/java/com/ibm/infosvr/restclient/search/IGCSearchConditionSet.java:49-78 | sets linked top-down (a over b, then b over c) compile to [a, [b, [c] under "and"] under "and"] under "and" |
| SearchConditionSets.LinkTopDown | src/main/java/com/ibm/infosvr/restclient/search/IGCSearchConditionSet.java:49-51 | three new one-leaf sets linked a over b first, then b over c, form the chain a, b, c with their own levels |
| SearchConditionSets.UnnestClears | src/main/java/com/ibm/infosvr/restclient/search/IGCSearchConditionSet.java:49-78 | nesting a set and then nesting null compiles to the outer set's leaves alone |
| SearchConditionSets.ConditionSet.GetConditionSetObject | src/main/java/com/ibm/infosvr/restclient/search/IGCSearchConditionSet.java:67-78 | for any finite chain of nested sets starting here: the result and every set's new conditions array are those of CompileChain on the chain's states before the call; no nested link changes |
| SearchConditionSets.ChainIsDistinct | src/main/java/com/ibm/infosvr/restclient/search/IGCSearchConditionSet.java:49-51 | the sets of a finite nested chain are pairwise distinct objects |
| Pagings.Cursor.HasMore | src/main/java/com/ibm/infosvr/restclient/model/Paging.java:67-69 | the definition numTotal > end: results exist beyond this page (no separate contract) |
| Pagings.DefaultCursor | src/main/java/com/ibm/infosvr/restclient/model/Paging.java:17-24 | numTotal = pageSize = end = begin = 0, no next or previous URL, and hasMore() is false |
| Pagings.FullCursor | src/main/java/com/ibm/infosvr/restclient/model/Paging.java:31-36 | numTotal = pageSize = end = n, begin = 0, no next or previous URL, and hasMore() is false |
| Pagings.CursorJson | src/main/java/com/ibm/infosvr/restclient/IGCRestClient.java:296 | the cursor as a tree has exactly the six Paging properties, and a null next URL becomes JSON null |
| Pagings.DecodeCursor | src/main/java/com/ibm/infosvr/restclient/model/Paging.java:7-24 | only an object can be read; it reads iff each of the four counts reads as an Integer (absent means 0) and each URL as a String (absent means null); every field is what its reader gives |
| Pagings.CursorTextCountsRoundTrip | src/main/java/com/ibm/infosvr/restclient/model/Paging.java:10-15 | an object whose counts are text Jackson reads as those counts, and whose URLs are the cursor's, reads as that cursor, whatever else it carries |
| Pagings.TextCount | src/main/java/com/ibm/infosvr/restclient/model/Paging.java:10-15 | an Integer property holding text that reads as n reads as n |
| Pagings.CursorJsonRoundTrip | src/main/java/com/ibm/infosvr/restclient/model/Paging.java:38-60 | a cursor whose numbers fit in an Integer reads back unchanged after conversion to a tree |
| Pagings.DecodeCursorIgnoresUnknown | src/main/java/com/ibm/infosvr/restclient/model/Paging.java:7 | a property Paging does not declare does not change what is read |
| Pagings.DecodeEmptyIsDefault | src/main/java/com/ibm/infosvr/restclient/model/Paging.java:17-24 | the empty object reads as the default cursor |
| Pagings.Paging.constructor | src/main/java/com/ibm/infosvr/restclient/model/Paging.java:17-24 | the new object holds the default cursor and hasMore() is false |
| Pagings.Paging.Full | src/main/java/com/ibm/infosvr/restclient/model/Paging.java:31-36 | the new object holds the full cursor for n and hasMore() is false |
| Pagings.Paging.FromCursor | src/main/java/com/ibm/infosvr/restclient/IGCRestClient.java:298 | the Paging built when a page is read holds the decoded cursor |
| Pagings.Paging.HasMore | src/main/java/com/ibm/infosvr/restclient/model/Paging.java:67-69 | true iff the object's numTotal exceeds its end |
| Pagings.Paging.SetNumTotal | src/main/java/com/ibm/infosvr/restclient/model/Paging.java:40 | only numTotal changes |
| Pagings.Paging.SetNextPageURL | src/main/java/com/ibm/infosvr/restclient/model/Paging.java:44 | only next changes |
| Pagings.Paging.SetPreviousPageURL | src/main/java/com/ibm/infosvr/restclient/model/Paging.java:48 | only previous changes |
| Pagings.Paging.SetPageSize | src/main/java/com/ibm/infosvr/restclient/model/Paging.java:52 | only pageSize changes |
| Pagings.Paging.SetEndIndex | src/main/java/com/ibm/infosvr/restclient/model/Paging.java:56 | only end changes |
| Pagings.Paging.SetBeginIndex | src/main/java/com/ibm/infosvr/restclient/model/Paging.java:60 | only begin changes |
| ReferenceLists.ReferenceList.constructor | src/main/java/com/ibm/infosvr/restclient/model/ReferenceList.java:21-22 | a fresh list has no items and a fresh default Paging, so hasMorePages() is false |
| ReferenceLists.ReferenceList.HasMorePages | src/main/java/com/ibm/infosvr/restclient/model/ReferenceList.java:37-39 | true iff the current Paging's numTotal exceeds its end |
| ReferenceLists.ReferenceList.SetPaging | src/main/java/com/ibm/infosvr/restclient/model/ReferenceList.java:26 | the paging is replaced wholesale and the items are untouched |
| ReferenceLists.ReferenceList.SetItems | src/main/java/com/ibm/infosvr/restclient/model/ReferenceList.java:30 | the items are replaced wholesale and the paging is untouched |
| ReferenceLists.ReferenceList.GetAllPages | src/main/java/com/ibm/infosvr/restclient/model/ReferenceList.java:46-49 | items become exactly what the client's list drain returns from the current items and cursor; paging becomes a new Paging(\|items\|), so hasMorePages() is false; an exception leaves both fields as they were |
| Identities.EmptyIdentity | src/main/java/com/ibm/infosvr/restclient/model/Identity.java:17-22 | no ancestors, and an empty asset type and name |
| Identities.IdentityOf | src/main/java/com/ibm/infosvr/restclient/model/Identity.java:31-39 | both sequences have the context's length; position i holds context[i]'s type and name; the asset's own type and name are the arguments |
| Identities.NewIdentity | src/main/java/com/ibm/infosvr/restclient/model/Identity.java:31-39 | the constructor's loop builds exactly IdentityOf(context, type, name) |
| Identities.Render | src/main/java/com/ibm/infosvr/restclient/model/Identity.java:52-61 | the rendering always ends with the asset's own "(type)=name" segment |
| Identities.ToString | src/main/java/com/ibm/infosvr/restclient/model/Identity.java:52-61 | the StringBuilder loop produces "(t_i)=n_i::" over the ancestors in order, then "(type)=name" |
| Identities.Equals | src/main/java/com/ibm/infosvr/restclient/model/Identity.java:47-49 | an identity equals itself; two identities without ancestors are equal iff their own segments render alike |
| Identities.EmptyIdentityRendering | src/main/java/com/ibm/infosvr/restclient/model/Identity.java:17-22 | the empty identity renders as "()=" |
| Identities.ContextFreeRendering | src/main/java/com/ibm/infosvr/restclient/model/Identity.java:52-61 | without ancestors only the asset's own "(type)=name" is rendered |
| Identities.AncestorDecomposition | src/main/java/com/ibm/infosvr/restclient/model/Identity.java:53-60 | the rendering splits around any ancestor's segment |
| Identities.AssetNameDistinguishes | src/main/java/com/ibm/infosvr/restclient/model/Identity.java:59 | changing the asset's own name (as rendered) makes equals false |
| Identities.AssetTypeDistinguishes | src/main/java/com/ibm/infosvr/restclient/model/Identity.java:59 | changing the asset's own type (as rendered) makes equals false |
| Identities.AncestorTypeDistinguishes | src/main/java/com/ibm/infosvr/restclient/model/Identity.java:54-58 | changing one ancestor's type (as rendered), the rest fixed, makes equals false |
| Identities.AncestorNameDistinguishes | src/main/java/com/ibm/infosvr/restclient/model/Identity.java:54-58 | changing one ancestor's name (as rendered), the rest fixed, makes equals false |
| Identities.NullNameCollides | src/main/java/com/ibm/infosvr/restclient/model/Identity.java:47-59 | a null name and the name "null" give equal identities |
| MainObjects.ContextQuery | src/main/java/com/ibm/infosvr/restclient/model/MainObject.java:105-108 | the search names only the object's type, asks for no extra properties, carries the single condition _id = id joined by "and", uses page size 2 and is not a development-glossary search |
| MainObjects.PopulatedContext | src/main/java/com/ibm/infosvr/restclient/model/MainObject.java:101-118 | a search happens iff name is null and _context is empty; without one the answer is true and nothing changes; true iff no search was needed or the first item is a MainObject; false iff the search found nothing, with nothing changed; else name and _context come from the first item; a non-MainObject first item is a ClassCastException after name was copied; a null search result is a null dereference |
| MainObjects.PopulateSettles | src/main/java/com/ibm/infosvr/restclient/model/MainObject.java:104 | after a successful population that leaves a name or a context, a second call searches nothing and changes nothing |
| MainObjects.FirstIdentity | src/main/java/com/ibm/infosvr/restclient/model/MainObject.java:126-130 | the first identity is built from the context left by population, the type and _name, whatever population answered; only an exception prevents it |
| MainObjects.UnfoundAssetIdentity | src/main/java/com/ibm/infosvr/restclient/model/MainObject.java:128-129 | when the search finds nothing, the identity has no ancestors and renders as "(type)=_name" |
| MainObjects.MainObject.constructor | src/main/java/com/ibm/infosvr/restclient/model/MainObject.java:22-24 | the identity starts null; the other fields are the arguments |
| MainObjects.MainObject.PopulateContext | src/main/java/com/ibm/infosvr/restclient/model/MainObject.java:101-118 | the answer and the new name and _context are those of PopulatedContext; exactly one search is logged iff one was needed |
| MainObjects.MainObject.GetIdentity | src/main/java/com/ibm/infosvr/restclient/model/MainObject.java:126-132 | a set identity is returned unchanged, with no search and no other change; otherwise population runs, and the identity is built, stored and returned |
| References.LabelDecodesAsSimpleType | src/main/java/com/ibm/infosvr/restclient/model/Label.java:37-39 | a payload of type "label" decodes to a Label, which is a simple type by the exact-class checks and not a reference |
| References.RecursePropertyByName | src/main/java/com/ibm/infosvr/restclient/model/Reference.java:123-134 | the search from the superclass upwards finds the lowest declaring class above, or nothing when none declares the name |
| References.GetFieldByName | src/main/java/com/ibm/infosvr/restclient/model/Reference.java:142-150 | the field from the lowest class of the hierarchy that declares it; null iff no class declares it |
| References.SubclassFieldWins | src/main/java/com/ibm/infosvr/restclient/model/Reference.java:142-150 | the first class (from the subclass up) that declares the name supplies the field |
| References.GetPropertyByName | src/main/java/com/ibm/infosvr/restclient/model/Reference.java:158-169 | null when no class declares the name; otherwise the lowest declaring class decides: its field's value when the field is accessible and set, else null |
| References.IsReference | src/main/java/com/ibm/infosvr/restclient/model/Reference.java:177-179 | the exact runtime class is Reference; such an object is never also a ReferenceList |
| References.IsReferenceList | src/main/java/com/ibm/infosvr/restclient/model/Reference.java:198-200 | the exact runtime class is ReferenceList (a definition; its consequences are stated by IsReference and IsSimpleType) |
| References.IsSimpleType | src/main/java/com/ibm/infosvr/restclient/model/Reference.java:219-221 | neither exact class check holds; Label and Paging objects are simple types |
| References.IsReferenceProperty | src/main/java/com/ibm/infosvr/restclient/model/Reference.java:187-190 | a missing field is a null dereference; otherwise the answer is whether the declared type is exactly Reference |
| References.IsReferenceListProperty | src/main/java/com/ibm/infosvr/restclient/model/Reference.java:208-211 | a missing field is a null dereference; otherwise the answer is whether the declared type is exactly ReferenceList |
| References.IsSimpleTypeProperty | src/main/java/com/ibm/infosvr/restclient/model/Reference.java:229-232 | a missing field is a null dereference; otherwise the by-class isSimpleType applied to the declared type |
| References.SimplePropertyIsNeitherKind | src/main/java/com/ibm/infosvr/restclient/model/Reference.java:229-232 | isSimpleType(name) fails iff no field exists; otherwise it holds iff the field is neither a Reference nor a ReferenceList |
| References.GetAssetWithSubsetOfProperties | src/main/java/com/ibm/infosvr/restclient/model/Reference.java:56-67 | one _id search with page size 2 and the given properties; the first item, or null when there are none; a null search result is a null dereference |
| Queries.IdCondition | src/main/java/com/ibm/infosvr/restclient/model/Reference.java:58-59 | the condition set holds the single leaf _id = id, joined by "and" |
| Queries.IdLookup | src/main/java/com/ibm/infosvr/restclient/model/Reference.java:58-61 | the search names the one type, the properties, that condition and page size 2 |
| Assets.IsLabel | src/main/java/com/ibm/infosvr/restclient/model/Label.java:37-39 | the exact runtime class is Label, which is neither Reference nor ReferenceList |
| Assets.ShapeFor | src/main/java/com/ibm/infosvr/restclient/model/Reference.java:23 | a registered Reference subtype is used for its discriminator; anything else falls back to Reference |
| Assets.Decode | src/main/java/com/ibm/infosvr/restclient/model/Reference.java:23-30 | only an object decodes; it decodes iff _type, _name, _id and _url each read as a String and the body of the class ShapeFor selects from _type reads; the class is that one, the four fields are their readers' values, and the body is BodyFor's |
| Assets.BodyFor | src/main/java/com/ibm/infosvr/restclient/model/Reference.java:23 | the selected class reads its own properties: a MainObject's through DecodeMainBody, a Label's through DecodeLabelBody, none for any other class |
| Assets.DecodeMainBody | src/main/java/com/ibm/infosvr/restclient/model/MainObject.java:24-93 | a MainObject subtype reads iff its context, name, two descriptions, creator and modifier, two dates and five relationship lists each read; the result is a MainObject body whose every field is what its reader gives |
| Assets.DecodeLabelBody | src/main/java/com/ibm/infosvr/restclient/model/Label.java:15-35 | a Label reads iff its context, name, description and labeled_assets each read; the result is a Label body whose every field is what its reader gives |
| Assets.DateField | src/main/java/com/ibm/infosvr/restclient/model/MainObject.java:83-93 | a Date property is unreadable iff it is present and neither null, a number nor text |
| Assets.DecodeContext | src/main/java/com/ibm/infosvr/restclient/model/MainObject.java:24 | an absent "_context" keeps the default empty list; a present one reads iff it is an array whose every element reads, and then as those elements |
| Assets.ListField | src/main/java/com/ibm/infosvr/restclient/model/MainObject.java:30-34 | an absent or null relationship property reads as null; an object is read as a ReferenceList, failing exactly when that read fails; only a present non-null value can fail |
| Assets.DecodePage | src/main/java/com/ibm/infosvr/restclient/model/ReferenceList.java:18-30 | an object reads iff its "items" (when present) is an array every element of which reads, and its "paging" (when present) reads as a Paging; the items are those elements in order and the cursor the decoded Paging; absent ones default to an empty list and a default cursor; only objects are read |
| Assets.DecodeAll | src/main/java/com/ibm/infosvr/restclient/model/ReferenceList.java:22 | an array decodes iff every element does, element by element and in order |
| Assets.UnregisteredTypeDecodesAsReference | src/main/java/com/ibm/infosvr/restclient/model/Reference.java:23-24 | an unregistered _type decodes to a plain Reference carrying _name, _type, _id and _url |
| Assets.PagingDiscriminatorDecodesAsReference | src/main/java/com/ibm/infosvr/restclient/IGCRestClient.java:71 | "paging" is registered, but not as a Reference subtype, so an item with that _type is still a Reference |
| Assets.DecodeIgnoresUnknownProperty | src/main/java/com/ibm/infosvr/restclient/model/Reference.java:24 | a property the selected class does not declare (Reference's four, plus MainObject's or Label's own for those kinds) does not change the decoded asset |
| Assets.MalformedRelationshipIsUnreadable | src/main/java/com/ibm/infosvr/restclient/model/Label.java:19 | a relationship property the selected class declares that holds neither null nor an object makes the whole asset unreadable |
| Sessions.Headers | src/main/java/com/ibm/infosvr/restclient/IGCRestClient.java:76-92 | no-cache and application/json come first; then one header per cookie, or one Basic authorization header |
| Sessions.HeadersShape | src/main/java/com/ibm/infosvr/restclient/IGCRestClient.java:76-92 | no-cache and application/json first; then one Cookie header per cookie, in order, when cookies are held, or else exactly one Authorization "Basic " + authorization; an Authorization header is present iff no cookies are held |
| Sessions.CookiesAfter | src/main/java/com/ibm/infosvr/restclient/IGCRestClient.java:95-102 | cookies are replaced only on 200 OK with Set-Cookie present; otherwise they are unchanged |
| Sessions.CookiesAreKept | src/main/java/com/ibm/infosvr/restclient/IGCRestClient.java:83-88 | once cookies are held they stay held, and Basic authentication is never sent again |
| Sessions.LoginSwitchesToCookies | src/main/java/com/ibm/infosvr/restclient/IGCRestClient.java:83-99 | after a 200 OK with Set-Cookie, the next request carries exactly those cookies |
| Sessions.Exchange | src/main/java/com/ibm/infosvr/restclient/IGCRestClient.java:112-132 | exactly one request with the current headers is sent; only cookies can change; it raises iff the transport fails, then leaving the cookies; on a response the result is the body (null when absent) and the cookies are CookiesAfter the status and Set-Cookie |
| Json.DecodeInt32 | src/main/java/com/ibm/infosvr/restclient/model/Paging.java:10-15 | an Integer property: a number reads iff it fits 32 bits, text iff IntegerText reads it, and then as that value; nothing else reads |
| Json.IntegerText | src/main/java/com/ibm/infosvr/restclient/model/Paging.java:10-15 | text read as an Integer is a 32-bit value |
| Json.IntegerTextOfIntToString | src/main/java/com/ibm/infosvr/restclient/model/Paging.java:10-15 | the decimal text of every int reads as that int |
| Json.IntegerTextOfDigits | src/main/java/com/ibm/infosvr/restclient/model/Paging.java:10-15 | unsigned digits read as their value, and are refused when it does not fit an int |
| Json.IntegerTextOfNegative | src/main/java/com/ibm/infosvr/restclient/model/Paging.java:10-15 | a '-' and digits read as the negated value, and are refused below the int range |
| Json.IntegerTextOfPlus | src/main/java/com/ibm/infosvr/restclient/model/Paging.java:10-15 | one leading '+' is ignored before the digits |
| Json.IntegerTextSkipsLeadingBlank | src/main/java/com/ibm/infosvr/restclient/model/Paging.java:10-15 | leading characters up to U+0020 are ignored |
| Json.IntegerTextAgreesWithAsInt | src/main/java/com/ibm/infosvr/restclient/model/Paging.java:10-15 | text an Integer property accepts gives the same value through asInt |
| Json.AsIntOrZero | src/main/java/com/ibm/infosvr/restclient/IGCRestClient.java:67 | asInt(0): numbers narrowed to 32 bits, booleans as 1 or 0, text read as Jackson parses it, anything else 0; always an int |
| Json.ParseAsIntOfIntToString | src/main/java/com/ibm/infosvr/restclient/IGCRestClient.java:67 | the decimal text of every int reads back as that int |
| Json.ParseAsIntOfDigits | src/main/java/com/ibm/infosvr/restclient/IGCRestClient.java:67 | unsigned digits read as their value, or 0 when it does not fit an int |
| Json.ParseAsIntOfNegative | src/main/java/com/ibm/infosvr/restclient/IGCRestClient.java:67 | a '-' and digits read as the negated value, or 0 below the int range |
| Json.ParseAsIntOfPlus | src/main/java/com/ibm/infosvr/restclient/IGCRestClient.java:67 | one leading '+' is ignored before the digits |
| Json.ParseAsIntOfDoublePlus | src/main/java/com/ibm/infosvr/restclient/IGCRestClient.java:67 | a second '+' sends the text down the decimal path, which saturates instead of answering 0 |
| Json.ParseAsIntOfDecimal | src/main/java/com/ibm/infosvr/restclient/IGCRestClient.java:67 | decimal text reads as its whole part, saturated at the largest int |
| Json.ParseAsIntOfNegativeDecimal | src/main/java/com/ibm/infosvr/restclient/IGCRestClient.java:67 | negative decimal text reads as its whole part negated, saturated at the smallest int |
| Json.ParseAsIntSkipsLeadingBlank | src/main/java/com/ibm/infosvr/restclient/IGCRestClient.java:67 | leading characters up to U+0020 are ignored |
| Client.Connected | src/main/java/com/ibm/infosvr/restclient/IGCRestClient.java:46-68 | no request and workflow disabled when the base URL or the credentials are null; otherwise exactly one probe search with Basic authentication, and workflow is enabled iff the probe's paging.numTotal read as an int is > 0; a failed probe or a null body raises; the client keeps the cookies the probe's response sets (CookiesAfter of none), and holds none when the probe fails |
| Client.WithWorkflowMode | src/main/java/com/ibm/infosvr/restclient/IGCRestClient.java:251-253 | the rewrite only appends, and only "&workflowMode=draft"; with workflow disabled the URL is unchanged |
| Client.WorkflowModeIdempotent | src/main/java/com/ibm/infosvr/restclient/IGCRestClient.java:251-253 | a URL that already carries the marker is unchanged; with workflow enabled the result always has the marker; applying it twice equals applying it once |
| Client.RelationshipName | src/main/java/com/ibm/infosvr/restclient/IGCRestClient.java:258-260 | a URL shorter than the base plus the asset route plus 2 is a StringIndexOutOfBoundsException, the only error; a name lies beyond that prefix and contains no '?' |
| Client.RelationshipNameOfAssetRoute | src/main/java/com/ibm/infosvr/restclient/IGCRestClient.java:257-260 | for base + ASSET + "/" + id + "/" + attribute + "?" + query, the extracted name is the attribute |
| Client.NextPageJson | src/main/java/com/ibm/infosvr/restclient/IGCRestClient.java:243-268 | the session keeps its base URL, credentials and workflow flag; at most one request is added to the log |
| Client.NextPageJsonRequests | src/main/java/com/ibm/infosvr/restclient/IGCRestClient.java:243-268 | a null cursor raises; no "next", or the text "null", gives {"items": []} with no request; otherwise exactly one GET of the rewritten URL, whose outcome is the answer when it fails or the URL is outside the asset route |
| Client.AssetPageIsRerooted | src/main/java/com/ibm/infosvr/restclient/IGCRestClient.java:257-261 | the page of an asset-relationship URL is the response re-rooted at the relationship's attribute, with workflow enabled or not, after exactly the one GET of the rewritten URL |
| Client.NextPageJsonReadsOnlyNext | src/main/java/com/ibm/infosvr/restclient/IGCRestClient.java:247-250 | getNextPage(JsonNode) depends on the cursor's "next" alone |
| Client.NextPage | src/main/java/com/ibm/infosvr/restclient/IGCRestClient.java:295-304 | the session is the one getNextPage(JsonNode) leaves, keeping its configuration and gaining at most one request; its exception propagates, a null tree is a NullPointerException, a missing one gives null, and a tree gives the ReferenceList it reads as, or null when it cannot be read |
| Client.NextPageReadsOnlyNext | src/main/java/com/ibm/infosvr/restclient/IGCRestClient.java:295-304 | getNextPage(Paging) depends on the cursor's next URL alone |
| Client.NextPageWithoutNext | src/main/java/com/ibm/infosvr/restclient/IGCRestClient.java:246-250 | a cursor with no next URL reads as the empty page with no request |
| Client.DrainList | src/main/java/com/ibm/infosvr/restclient/IGCRestClient.java:314-324 | a successful drain ends with the caller's items, unchanged |
| Client.DrainListFirstStep | src/main/java/com/ibm/infosvr/restclient/IGCRestClient.java:314-324 | an exception or an unreadable page ends the list drain; an empty page returns the items; a non-empty page continues from its cursor with the page placed first |
| Client.ListChain | src/main/java/com/ibm/infosvr/restclient/IGCRestClient.java:314-324 | every page the list drain continues past is non-empty |
| Client.DrainListReversesPages | src/main/java/com/ibm/infosvr/restclient/IGCRestClient.java:314-324 | the result is the fetched pages in reverse fetch order, each page's order kept, followed by the caller's unmodified items |
| Client.DrainListWithoutNext | src/main/java/com/ibm/infosvr/restclient/IGCRestClient.java:314-324 | without a next page the items come back unchanged and nothing is sent |
| Client.DrainListIgnoresCounts | src/main/java/com/ibm/infosvr/restclient/IGCRestClient.java:314-324 | two cursors with the same next URL drain alike, whatever their counts |
| Client.DrainListFuelMonotone | src/main/java/com/ibm/infosvr/restclient/IGCRestClient.java:314-324 | more fuel does not change a drain that did not run out |
| Client.DrainNode | src/main/java/com/ibm/infosvr/restclient/IGCRestClient.java:278-286 | the caller's array only grows: its old contents stay in front, also when the drain fails |
| Client.NodeChain | src/main/java/com/ibm/infosvr/restclient/IGCRestClient.java:278-286 | every page the node drain appends is non-empty |
| Client.DrainNodeAppendsInOrder | src/main/java/com/ibm/infosvr/restclient/IGCRestClient.java:278-286 | the caller's array grows by the fetched pages in fetch order, also when the drain ends in an exception |
| Client.DrainNodeFuelMonotone | src/main/java/com/ibm/infosvr/restclient/IGCRestClient.java:278-286 | more fuel does not change a drain that did not run out |
| Client.DrainNodeWithoutNext | src/main/java/com/ibm/infosvr/restclient/IGCRestClient.java:278-286 | without a next page the array is unchanged and nothing is sent |
| Client.RestClient.Init | src/main/java/com/ibm/infosvr/restclient/IGCRestClient.java:51-56 | fields as before the probe: workflow disabled, no cookies, nothing sent, and the two seeded registrations |
| Client.RestClient.Connect | src/main/java/com/ibm/infosvr/restclient/IGCRestClient.java:51-74 | the constructor succeeds iff Connected does, leaving its session state and the seeded registry |
| Client.RestClient.SetCookiesFromResponse | src/main/java/com/ibm/infosvr/restclient/IGCRestClient.java:95-102 | the cookies become CookiesAfter of the old cookies |
| Client.RestClient.MakeRequest | src/main/java/com/ibm/infosvr/restclient/IGCRestClient.java:112-132 | the result and the new session state are those of Exchange |
| Client.RestClient.GetNextPageJson | src/main/java/com/ibm/infosvr/restclient/IGCRestClient.java:243-268 | the result and the new session state are those of NextPageJson |
| Client.RestClient.GetNextPage | src/main/java/com/ibm/infosvr/restclient/IGCRestClient.java:295-304 | the result and the new session state are those of NextPage |
| Client.RestClient.GetAllPagesList | src/main/java/com/ibm/infosvr/restclient/IGCRestClient.java:314-324 | the result and the new session state are those of DrainList |
| Client.RestClient.MergeList | src/main/java/com/ibm/infosvr/restclient/IGCRestClient.java:317-323 | after one fetch, the remaining steps give what DrainList gives from before the fetch |
| Client.RestClient.GetAllPagesNode | src/main/java/com/ibm/infosvr/restclient/IGCRestClient.java:278-286 | the caller's array, the session and the outcome are those of DrainNode; on success the caller's own array is returned |
| Client.RestClient.MergeNode | src/main/java/com/ibm/infosvr/restclient/IGCRestClient.java:280-285 | after one fetch, the remaining steps give what DrainNode gives from before the fetch |
| Client.RestClient.IsWorkflowEnabled | src/main/java/com/ibm/infosvr/restclient/IGCRestClient.java:379-381 | the stored workflow flag |

## Left out

- **The HTTP transport is an oracle.**
  - The transport is a pure function of the request. `RestTemplate` failures map to `TransportFailure`.
  - The response body is already parsed JSON, or absent. An unparsable body is treated as absent: its `IOException` is swallowed and yields null.
  - Concurrency, time-outs and session expiry are not modelled.
- **Jackson is approximated.**
  - `readTree`, `readValue`, `convertValue` and `toString` are value functions over `Json`, and only their effects on the modelled types are captured.
  - A page that cannot be read as a `ReferenceList` gives null. So does a page whose "items" or "paging" is JSON null, which Jackson would store as a null field instead.
  - A `Date` property is only checked to be null, a number or text; the text's date format is not checked.
  - An `Integer` property holding a Java null is not modelled; numbers are ints.
- Json.DecodeInt32: JSON null, and text that is empty or "null" after trimming, make Jackson store a null `Integer`. The model has no null count and refuses them. The digits accepted are ASCII only, where Java's `Character.digit` also accepts other Unicode decimal digits.
- Pagings.DecodeCursor: a count holding JSON null, "" or "null" is refused for the reason given under Json.DecodeInt32. Jackson would store a null `Integer`, so a later `hasMore()` would raise `NullPointerException`.
- Assets.DecodeContext: a "_context" holding JSON null is refused. Jackson calls `setContext(null)` and stores a null list, which the model's sequence cannot represent.
- Assets.DecodeAll: a JSON null element is refused. Jackson stores a null `Reference` in the list, which the model cannot represent.
- **A null condition.** `addCondition(null)`, and the constructor `IGCSearchConditionSet(null)`, raise `NullPointerException` at IGCSearchConditionSet.java line 32. In the model a `SearchConditions.Condition` is never null, so these calls cannot be made.
- Json.AsIntOrZero: text follows Jackson 2's `NumberInput.parseAsInt`, except that `Double.parseDouble` is modelled only for plain decimals. Text in exponent or hexadecimal form, `Infinity`, or with a `d`/`f` suffix reads as 0 here. Decimals are truncated exactly, not first rounded to a `double`, so "2.99999999999999999" reads as 2 where Java reads 3.
- **Registration.** `registerPOJO`/`registerSubtypes`: the registry is fixed at construction, holding the two seeded entries "paging" and "label". Registering further types afterwards is not modelled.
- **The search oracle returns the first page.** `search`, `searchJson`, `getTypes`, `updateJson`, `disconnect`, `getJsonAssetById` and `getAssetById` are not modelled as operations. The search is an oracle from a query to the first page of results, or null (`Queries.SearchService`). The `IGCSearch` builder is an opaque query record.
- **Paging of search results.** A search's own paging is not modelled.
- **Other omissions.**
  - `encodeBasicAuth`: a Base64 library call.
  - `disableSslVerification`: TLS plumbing.
  - `ObjectPrinter`: reflection-based debug output.
  - The getters and setters of `MainObject` and `Label`; their properties are modelled as decoded values.
- **`Reference.getFullAssetDetails` is not modelled.** It walks `getClass().getFields()`, which sees public fields only, while relationship fields are protected.
- **`Reference.isReference(Object)`, `isReferenceList(Object)` and `isSimpleType(Object)`** are predicates on the exact runtime class name. Calling them on a null object raises `NullPointerException`, and that case is not modelled.
- **Strings are sequences of Unicode scalar values**, not of UTF-16 code units. Lengths and offsets therefore differ from Java's for text outside the Basic Multilingual Plane. This matters for the offsets `Client.RelationshipName` computes.
- **`ReferenceList.setPaging(null)` and `setItems(null)`.** `ReferenceLists.ReferenceList.SetPaging` takes a non-null `Paging` and `SetItems` a sequence, so the null Java accepts cannot be stored.
- **The drains cannot loop forever here.** `Client.DrainList` and `Client.DrainNode` carry a fuel bound, and the methods require it to be enough. A server whose next links never run out is outside the model.
- **`sNextURL != "null"`** compares references in Java. It is modelled as string inequality.
- **Aliasing.**
  - The list drain works on sequence values. The Java code's aliasing of the first fetched page's list, which `addAll` grows in place, is not modelled; it does not change what is returned.
  - The node drain's array is one `Client.JsonArray` object that is updated in place.
- SearchConditionSets.CompileChain and SearchConditionSets.ConditionSet.GetConditionSetObject: compiled objects are value snapshots. In Java, the result's "conditions" is the set's own live `ArrayNode`, and a parent's array holds the nested set's result object, which refers to the nested set's live array. So a later `addCondition` on a set, or a later compile of an inner set, shows through in earlier results and in the outer arrays. The model agrees with Java's objects only until some set of the chain is changed or compiled again.
- **Nested condition sets form a finite chain.** `SearchConditionSets.ConditionSet.GetConditionSetObject` takes the sets it will visit as a ghost argument. It requires the nested links to follow that sequence and to end in null. Sets may be linked in any order (`SearchConditionSets.NestTopDown`). A set nested inside itself, directly or through others, makes Java recurse until the stack overflows. Such a cycle has no finite chain and is outside the model.
- **Client.RestClient.GetAllPagesList, Client.RestClient.MergeList, Client.RestClient.GetAllPagesNode, Client.RestClient.MergeNode** take a ghost `step` function for the specification. They require it to be this client's `getNextPage`, rather than naming that function directly.
