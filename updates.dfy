/** Finding the update a rendered list item stands for. */
module Updates {
  import opened Wrappers
  import opened JsValue
  import JsString
  import Lodash

  /** The marker in front of an update id in a list item's test id. */
  const ItemSep: string := "update-item-"

  /**
   * `testId.split('update-item-')[1]`: the text after the first marker, up
   * to the next marker or the end; absent when there is no marker.
   */
  function ExtractUpdateId(testId: string): (r: Option<string>)
    ensures r.None? <==> !JsString.Contains(testId, ItemSep)
    ensures r.Some? ==>
      && JsString.IndexFrom(testId, ItemSep, 0).Some?
      && var rest := testId[JsString.IndexFrom(testId, ItemSep, 0).value + |ItemSep|..];
        && r.value <= rest
        && !JsString.Contains(r.value, ItemSep)
        && (r.value == rest || JsString.OccursAt(rest, ItemSep, |r.value|))
  {
    var parts := JsString.Split(testId, ItemSep);
    if |parts| > 1 then
      var i := JsString.IndexFrom(testId, ItemSep, 0).value;
      JsString.SplitHead(testId[i + |ItemSep|..], ItemSep);
      Some(parts[1])
    else None
  }

  /** The test id a list item carries for an update id without the marker gives that id back. */
  lemma ExtractFromItemTestId(id: string)
    requires !JsString.Contains(id, ItemSep)
    ensures ExtractUpdateId(ItemSep + id) == Some(id)
  {
    var t := ItemSep + id;
    assert JsString.OccursAt(t, ItemSep, 0) by {
      assert t[0..|ItemSep|] == ItemSep;
    }
    assert JsString.IndexFrom(t, ItemSep, 0) == Some(0);
    assert t[|ItemSep|..] == id;
  }

  /** One row of the updates query result; only its id matters here. */
  datatype UpdateRaw = UpdateRaw(id: string, fields: map<string, Value>)

  /**
   * `getUpdateFromEl`: the first result whose id equals the extracted id;
   * nothing when the test id has no marker (an `undefined` id equals no
   * result's string id).
   */
  function GetUpdateFromEl(testId: string, results: seq<UpdateRaw>): (r: Option<UpdateRaw>)
    ensures r.Some? ==> r.value in results && ExtractUpdateId(testId) == Some(r.value.id)
    ensures r.Some? ==> exists i :: 0 <= i < |results| && results[i] == r.value
                                    && forall j :: 0 <= j < i ==> results[j].id != r.value.id
    ensures r.None? <==> ExtractUpdateId(testId).None?
                         || forall u :: u in results ==> u.id != ExtractUpdateId(testId).value
  {
    match ExtractUpdateId(testId)
    case None => None
    case Some(id) => Lodash.Find(results, (u: UpdateRaw) => u.id == id)
  }

  /** With distinct ids, the list item for a result's id finds exactly that result. */
  lemma ItemFindsItsUpdate(results: seq<UpdateRaw>, k: int)
    requires 0 <= k < |results|
    requires forall i, j :: 0 <= i < j < |results| ==> results[i].id != results[j].id
    requires !JsString.Contains(results[k].id, ItemSep)
    ensures GetUpdateFromEl(ItemSep + results[k].id, results) == Some(results[k])
  {
    ExtractFromItemTestId(results[k].id);
    var r := GetUpdateFromEl(ItemSep + results[k].id, results);
    assert results[k] in results;
    var i :| 0 <= i < |results| && results[i] == r.value && forall j :: 0 <= j < i ==> results[j].id != r.value.id;
    assert r.value.id == results[k].id;
  }
}
