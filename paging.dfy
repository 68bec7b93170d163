/** Paging: the cursor the server attaches to every page of results. */
module Pagings {
  import opened Wrappers
  import opened Json
  import opened Text

  /** The state of a Paging object. */
  datatype Cursor = Cursor(
    numTotal: int,
    next: Option<string>,
    previous: Option<string>,
    pageSize: int,
    end: int,
    begin: int)
  {
    /** hasMore(): more results exist beyond the end of this page. */
    predicate HasMore() {
      numTotal > end
    }
  }

  /** new Paging(): everything zero, no neighbouring pages. */
  function DefaultCursor(): (c: Cursor)
    ensures c.numTotal == 0 && c.pageSize == 0 && c.end == 0 && c.begin == 0
    ensures c.next.None? && c.previous.None?
    ensures !c.HasMore()
  {
    Cursor(0, None, None, 0, 0, 0)
  }

  /** new Paging(n): a "full" cursor that covers n results in a single page. */
  function FullCursor(n: int): (c: Cursor)
    ensures c.numTotal == n && c.pageSize == n && c.end == n && c.begin == 0
    ensures c.next.None? && c.previous.None?
    ensures !c.HasMore()
  {
    Cursor(n, None, None, n, n, 0)
  }

  const PAGING_KEYS: set<string> := {"numTotal", "next", "previous", "pageSize", "end", "begin"}

  /** mapper.convertValue(paging, JsonNode.class): one property per getter, null URLs as JSON null. */
  function CursorJson(c: Cursor): (j: Json)
    ensures j.Obj? && j.fields.Keys == PAGING_KEYS
    ensures j.fields["next"] == TextNode(c.next)
  {
    Obj(map[
      "numTotal" := Num(c.numTotal),
      "next" := TextNode(c.next),
      "previous" := TextNode(c.previous),
      "pageSize" := Num(c.pageSize),
      "end" := Num(c.end),
      "begin" := Num(c.begin)])
  }

  /** Reading a Paging: absent properties keep the default constructor's values,
      unknown ones are ignored (@JsonIgnoreProperties(ignoreUnknown=true)). */
  function DecodeCursor(j: Json): (r: Result<Cursor>)
    ensures r.Ok? ==> j.Obj?
    ensures j.Obj? ==> var m := j.fields;
      r.Ok? <==>
        && IntField(m, "numTotal", 0).Ok? && IntField(m, "pageSize", 0).Ok?
        && IntField(m, "end", 0).Ok? && IntField(m, "begin", 0).Ok?
        && TextField(m, "next").Ok? && TextField(m, "previous").Ok?
    ensures r.Ok? ==> var m := j.fields; var c := r.value;
      && c.numTotal == IntField(m, "numTotal", 0).value && c.pageSize == IntField(m, "pageSize", 0).value
      && c.end == IntField(m, "end", 0).value && c.begin == IntField(m, "begin", 0).value
      && c.next == TextField(m, "next").value && c.previous == TextField(m, "previous").value
  {
    match j
    case Obj(m) =>
      var numTotal :- IntField(m, "numTotal", 0);
      var next :- TextField(m, "next");
      var previous :- TextField(m, "previous");
      var pageSize :- IntField(m, "pageSize", 0);
      var end :- IntField(m, "end", 0);
      var begin :- IntField(m, "begin", 0);
      Ok(Cursor(numTotal, next, previous, pageSize, end, begin))
    case _ => Err(DecodeFailure)
  }

  /** A cursor whose numbers fit Java's Integer survives the trip through JSON. */
  lemma CursorJsonRoundTrip(c: Cursor)
    requires IsInt32(c.numTotal) && IsInt32(c.pageSize) && IsInt32(c.end) && IsInt32(c.begin)
    ensures DecodeCursor(CursorJson(c)) == Ok(c)
  {
    var m := CursorJson(c).fields;
    assert m["numTotal"] == Num(c.numTotal) && m["pageSize"] == Num(c.pageSize);
    assert m["end"] == Num(c.end) && m["begin"] == Num(c.begin);
    assert m["previous"] == TextNode(c.previous);
  }

  /** An object whose counts are written as text that Jackson reads as those
      counts (their decimal text, say: IntegerTextOfIntToString) reads as the
      same cursor, whatever other properties it carries. */
  lemma CursorTextCountsRoundTrip(c: Cursor, m: map<string, Json>, numTotal: string, pageSize: string, end: string, begin: string)
    requires "numTotal" in m && m["numTotal"] == Str(numTotal) && IntegerText(numTotal) == Some(c.numTotal)
    requires "pageSize" in m && m["pageSize"] == Str(pageSize) && IntegerText(pageSize) == Some(c.pageSize)
    requires "end" in m && m["end"] == Str(end) && IntegerText(end) == Some(c.end)
    requires "begin" in m && m["begin"] == Str(begin) && IntegerText(begin) == Some(c.begin)
    requires "next" in m && m["next"] == TextNode(c.next)
    requires "previous" in m && m["previous"] == TextNode(c.previous)
    ensures DecodeCursor(Obj(m)) == Ok(c)
  {
    assert IntField(m, "numTotal", 0) == Ok(c.numTotal) by { TextCount(m, "numTotal", numTotal, c.numTotal); }
    assert IntField(m, "pageSize", 0) == Ok(c.pageSize) by { TextCount(m, "pageSize", pageSize, c.pageSize); }
    assert IntField(m, "end", 0) == Ok(c.end) by { TextCount(m, "end", end, c.end); }
    assert IntField(m, "begin", 0) == Ok(c.begin) by { TextCount(m, "begin", begin, c.begin); }
    var r := DecodeCursor(Obj(m));
    assert r.Ok?;
    var d := r.value;
    assert d.numTotal == c.numTotal && d.pageSize == c.pageSize && d.end == c.end && d.begin == c.begin;
    assert d.next == c.next && d.previous == c.previous;
  }

  /** An Integer property holding text that reads as n. */
  lemma TextCount(m: map<string, Json>, key: string, text: string, n: int)
    requires key in m && m[key] == Str(text) && IntegerText(text) == Some(n)
    ensures IntField(m, key, 0) == Ok(n)
  {
  }

  /** A property Paging does not declare does not change what is read. */
  lemma DecodeCursorIgnoresUnknown(m: map<string, Json>, key: string, v: Json)
    requires key !in PAGING_KEYS
    ensures DecodeCursor(Obj(m[key := v])) == DecodeCursor(Obj(m))
  {
    var m' := m[key := v];
    assert forall k :: k in PAGING_KEYS ==> (k in m' <==> k in m) && (k in m ==> m'[k] == m[k]);
  }

  /** The empty object reads as the default cursor. */
  lemma DecodeEmptyIsDefault()
    ensures DecodeCursor(Obj(map[])) == Ok(DefaultCursor())
  {
  }

  class Paging {
    var numTotal: int
    var next: Option<string>
    var previous: Option<string>
    var pageSize: int
    var end: int
    var begin: int

    /** The object's state as a value. */
    function Value(): Cursor
      reads this
    {
      Cursor(numTotal, next, previous, pageSize, end, begin)
    }

    /** hasMore(): numTotal > end. */
    predicate HasMore()
      reads this
      ensures HasMore() <==> numTotal > end
    {
      Value().HasMore()
    }

    /** new Paging(). */
    constructor ()
      ensures Value() == DefaultCursor()
      ensures !HasMore()
    {
      numTotal, next, previous := 0, None, None;
      pageSize, end, begin := 0, 0, 0;
    }

    /** new Paging(numTotal): the "full" cursor. */
    constructor Full(n: int)
      ensures Value() == FullCursor(n)
      ensures !HasMore()
    {
      numTotal, next, previous := n, None, None;
      pageSize, end, begin := n, n, 0;
    }

    /** A Paging as Jackson builds it when reading a page: the decoded cursor. */
    constructor FromCursor(c: Cursor)
      ensures Value() == c
    {
      numTotal, next, previous := c.numTotal, c.next, c.previous;
      pageSize, end, begin := c.pageSize, c.end, c.begin;
    }

    method SetNumTotal(n: int)
      modifies this`numTotal
      ensures Value() == old(Value()).(numTotal := n)
    {
      numTotal := n;
    }

    method SetNextPageURL(url: Option<string>)
      modifies this`next
      ensures Value() == old(Value()).(next := url)
    {
      next := url;
    }

    method SetPreviousPageURL(url: Option<string>)
      modifies this`previous
      ensures Value() == old(Value()).(previous := url)
    {
      previous := url;
    }

    method SetPageSize(n: int)
      modifies this`pageSize
      ensures Value() == old(Value()).(pageSize := n)
    {
      pageSize := n;
    }

    method SetEndIndex(n: int)
      modifies this`end
      ensures Value() == old(Value()).(end := n)
    {
      end := n;
    }

    method SetBeginIndex(n: int)
      modifies this`begin
      ensures Value() == old(Value()).(begin := n)
    {
      begin := n;
    }
  }
}
