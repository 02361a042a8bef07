/** The in-memory, id-keyed collections behind the product and category
    endpoints: a slice of records scanned front to back by id.

    Both endpoints do the same four things, so they are modelled once over
    `Entry<T>` (an id plus the record's other fields) and instantiated by
    `ProdukApi` and `CategoriesApi`. Ids come from `len + 1` on creation and
    are not kept unique. */
module IdList {
  import opened Wrappers

  /** A record of the collection: its id and the remaining fields. */
  datatype Entry<T> = Entry(id: int, fields: T)

  /** Reference definition: the index of the first record with id `id`. */
  function FirstIndex<T>(s: seq<Entry<T>>, id: int): (r: Option<nat>)
    ensures r.Some? ==> r.value < |s| && s[r.value].id == id
    ensures r.Some? ==> forall j :: 0 <= j < r.value ==> s[j].id != id
    ensures r.None? <==> forall j :: 0 <= j < |s| ==> s[j].id != id
  {
    if |s| == 0 then None
    else if s[0].id == id then Some(0)
    else match FirstIndex(s[1..], id)
      case None => None
      case Some(k) => Some(k + 1)
  }

  /** The lookup loop: returns the first record whose id matches. */
  function Get<T>(s: seq<Entry<T>>, id: int): (r: Option<Entry<T>>)
    ensures match FirstIndex(s, id)
      case None => r == None
      case Some(k) => r == Some(s[k])
  {
    if |s| == 0 then None
    else if s[0].id == id then Some(s[0])
    else Get(s[1..], id)
  }

  /** The update loop: the first matching record is replaced by `rec` with its
      id forced to `id`; the loop stops there. */
  function Replace<T>(s: seq<Entry<T>>, id: int, rec: Entry<T>): (r: seq<Entry<T>>)
    ensures |r| == |s|
    ensures match FirstIndex(s, id)
      case None => r == s
      case Some(k) => r == s[k := rec.(id := id)]
  {
    if |s| == 0 then []
    else if s[0].id == id then [rec.(id := id)] + s[1..]
    else [s[0]] + Replace(s[1..], id, rec)
  }

  /** The delete loop: `append(s[:i], s[i+1:]...)` at the first match. */
  function Remove<T>(s: seq<Entry<T>>, id: int): (r: seq<Entry<T>>)
    ensures match FirstIndex(s, id)
      case None => r == s
      case Some(k) => r == s[..k] + s[k + 1..]
  {
    if |s| == 0 then []
    else if s[0].id == id then s[1..]
    else [s[0]] + Remove(s[1..], id)
  }

  /** The create branch: the record gets id `len + 1` and goes to the end. */
  function Append<T>(s: seq<Entry<T>>, rec: Entry<T>): (r: seq<Entry<T>>)
    ensures |r| == |s| + 1 && r[..|s|] == s
    ensures r[|s|].id == |s| + 1 && r[|s|].fields == rec.fields
  {
    s + [rec.(id := |s| + 1)]
  }

  /** A record with id `id` that no earlier record shares is the first match. */
  lemma FirstIndexAt<T>(s: seq<Entry<T>>, id: int, k: nat)
    requires k < |s| && s[k].id == id
    requires forall j :: 0 <= j < k ==> s[j].id != id
    ensures FirstIndex(s, id) == Some(k)
  {
    var f := FirstIndex(s, id);
    assert f.Some?;
    assert !(f.value < k);
  }

  /** After a replace at an existing id, looking the id up yields the new
      record. */
  lemma GetAfterReplace<T>(s: seq<Entry<T>>, id: int, rec: Entry<T>)
    requires FirstIndex(s, id).Some?
    ensures Get(Replace(s, id, rec), id) == Some(rec.(id := id))
  {
    var k := FirstIndex(s, id).value;
    var r := Replace(s, id, rec);
    assert r == s[k := rec.(id := id)];
    FirstIndexAt(r, id, k);
  }

  /** Replacing twice with the same record is the same as replacing once. */
  lemma ReplaceIdempotent<T>(s: seq<Entry<T>>, id: int, rec: Entry<T>)
    ensures Replace(Replace(s, id, rec), id, rec) == Replace(s, id, rec)
  {
    var r := Replace(s, id, rec);
    match FirstIndex(s, id)
    case None =>
    case Some(k) =>
      assert r == s[k := rec.(id := id)];
      FirstIndexAt(r, id, k);
  }

  /** Cutting element `k` out of a sequence removes exactly that element. */
  lemma MultisetCut<T>(s: seq<T>, k: nat)
    requires k < |s|
    ensures multiset(s[..k] + s[k + 1..]) + multiset{s[k]} == multiset(s)
  {
    assert s == s[..k] + [s[k]] + s[k + 1..];
  }

  /** Deleting an existing id removes exactly one record and keeps the
      others, in order. */
  lemma RemoveDropsOne<T>(s: seq<Entry<T>>, id: int)
    requires FirstIndex(s, id).Some?
    ensures |Remove(s, id)| == |s| - 1
    ensures multiset(Remove(s, id)) + multiset{s[FirstIndex(s, id).value]} == multiset(s)
  {
    var k := FirstIndex(s, id).value;
    assert Remove(s, id) == s[..k] + s[k + 1..];
    MultisetCut(s, k);
  }

  /** After a create, looking up the new id finds the new record when no
      older record carried that id, and otherwise still finds the older one. */
  lemma GetAfterAppend<T>(s: seq<Entry<T>>, rec: Entry<T>)
    ensures (forall j :: 0 <= j < |s| ==> s[j].id != |s| + 1) ==>
      Get(Append(s, rec), |s| + 1) == Some(rec.(id := |s| + 1))
    ensures (exists j :: 0 <= j < |s| && s[j].id == |s| + 1) ==>
      Get(s, |s| + 1).Some? && Get(Append(s, rec), |s| + 1) == Get(s, |s| + 1)
  {
    var r := Append(s, rec);
    var n := |s| + 1;
    assert r == s + [rec.(id := n)];
    if forall j :: 0 <= j < |s| ==> s[j].id != n {
      FirstIndexAt(r, n, |s|);
    } else {
      var f := FirstIndex(s, n).value;
      assert forall j :: 0 <= j < |s| ==> r[j] == s[j];
      FirstIndexAt(r, n, f);
    }
  }

  /** The reply body of a failed JSON decode. */
  const InvalidRequest := "Invalid request"

  /** The texts one endpoint uses for a bad id, a missing record and a
      successful delete. */
  datatype Messages = Messages(invalidId: string, notFound: string, deleted: string)

  /** What a handler writes back. `Silent` is a handler that returns without
      writing anything (an empty 200 reply). */
  datatype Response<T> =
    | Json(entry: Entry<T>)
    | Created(entry: Entry<T>)
    | Message(text: string)
    | BadRequest(text: string)
    | NotFound(text: string)
    | Silent

  /** GET by id. `id` is the outcome of parsing the path segment (`None` when
      it is not a number). */
  function HandleGet<T>(msgs: Messages, s: seq<Entry<T>>, id: Option<int>): (r: Response<T>)
    ensures id.None? ==> r == BadRequest(msgs.invalidId)
    ensures id.Some? && FirstIndex(s, id.value).None? ==> r == NotFound(msgs.notFound)
    ensures id.Some? && FirstIndex(s, id.value).Some? ==> r == Json(s[FirstIndex(s, id.value).value])
  {
    match id
    case None => BadRequest(msgs.invalidId)
    case Some(n) =>
      match Get(s, n)
      case Some(e) => Json(e)
      case None => NotFound(msgs.notFound)
  }

  /** PUT by id. `body` is the outcome of decoding the request body. The id
      is checked first, then the body; an id that matches nothing leaves the
      collection as it is and writes nothing. */
  function HandleUpdate<T>(msgs: Messages, s: seq<Entry<T>>, id: Option<int>, body: Option<Entry<T>>)
    : (r: (seq<Entry<T>>, Response<T>))
    ensures id.None? ==> r == (s, BadRequest(msgs.invalidId))
    ensures id.Some? && body.None? ==> r == (s, BadRequest(InvalidRequest))
    ensures id.Some? && body.Some? && FirstIndex(s, id.value).None? ==> r == (s, Silent)
    ensures id.Some? && body.Some? && FirstIndex(s, id.value).Some? ==>
      var k := FirstIndex(s, id.value).value;
      var e := body.value.(id := id.value);
      r == (s[k := e], Json(e))
  {
    match id
    case None => (s, BadRequest(msgs.invalidId))
    case Some(n) =>
      match body
      case None => (s, BadRequest(InvalidRequest))
      case Some(rec) =>
        if Get(s, n).Some? then (Replace(s, n, rec), Json(rec.(id := n))) else (s, Silent)
  }

  /** DELETE by id: removes the first match; no match leaves the collection
      as it is and writes nothing. */
  function HandleDelete<T>(msgs: Messages, s: seq<Entry<T>>, id: Option<int>)
    : (r: (seq<Entry<T>>, Response<T>))
    ensures id.None? ==> r == (s, BadRequest(msgs.invalidId))
    ensures id.Some? && FirstIndex(s, id.value).None? ==> r == (s, Silent)
    ensures id.Some? && FirstIndex(s, id.value).Some? ==>
      var k := FirstIndex(s, id.value).value;
      r == (s[..k] + s[k + 1..], Message(msgs.deleted))
  {
    match id
    case None => (s, BadRequest(msgs.invalidId))
    case Some(n) =>
      if Get(s, n).Some? then (Remove(s, n), Message(msgs.deleted)) else (s, Silent)
  }

  /** POST: a decoded record is appended with id `len + 1`. */
  function HandleCreate<T>(s: seq<Entry<T>>, body: Option<Entry<T>>): (r: (seq<Entry<T>>, Response<T>))
    ensures body.None? ==> r == (s, BadRequest(InvalidRequest))
    ensures body.Some? ==>
      var e := Entry(|s| + 1, body.value.fields);
      r == (s + [e], Created(e))
  {
    match body
    case None => (s, BadRequest(InvalidRequest))
    case Some(rec) =>
      var s' := Append(s, rec);
      (s', Created(s'[|s|]))
  }
}
