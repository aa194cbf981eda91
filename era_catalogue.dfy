/**
 * The market time machine's server side: a fixed list of eras loaded once,
 * projected into summaries for the timeline page, and looked up by id for the
 * simulation page and the JSON API, which answer 404 for an unknown id.
 */
module EraCatalogue {
  import opened Wrappers
  import GrowthSimulator

  /** One entry of `data["eras"]`: the summary fields plus the market data and events the chart consumes. */
  datatype Era = Era(
    id: string,
    name: string,
    yearStart: int,
    yearEnd: int,
    description: string,
    dataset: GrowthSimulator.Dataset)

  /** The dictionary built per era by `get_scenarios`: exactly these five keys. */
  datatype Summary = Summary(id: string, name: string, yearStart: int, yearEnd: int, description: string)

  function Summarize(e: Era): Summary
  {
    Summary(e.id, e.name, e.yearStart, e.yearEnd, e.description)
  }

  /** `get_scenarios`: one summary per era, in the order of the list. */
  function GetScenarios(eras: seq<Era>): (r: seq<Summary>)
    ensures |r| == |eras|
    ensures forall i :: 0 <= i < |eras| ==> r[i].id == eras[i].id && r[i].name == eras[i].name
    ensures forall i :: 0 <= i < |eras| ==> r[i].yearStart == eras[i].yearStart && r[i].yearEnd == eras[i].yearEnd
    ensures forall i :: 0 <= i < |eras| ==> r[i].description == eras[i].description
  {
    seq(|eras|, i requires 0 <= i < |eras| => Summarize(eras[i]))
  }

  /** `get_era_data`: the first era with the id, or None. */
  function GetEraData(eras: seq<Era>, eraId: string): (r: Option<Era>)
    ensures r.None? <==> forall i :: 0 <= i < |eras| ==> eras[i].id != eraId
    ensures r.Some? ==>
      exists i :: 0 <= i < |eras| && eras[i] == r.value && eras[i].id == eraId &&
        forall j :: 0 <= j < i ==> eras[j].id != eraId
  {
    if eras == [] then None
    else if eras[0].id == eraId then Some(eras[0])
    else
      var rest := GetEraData(eras[1..], eraId);
      assert forall i :: 1 <= i < |eras| ==> eras[1..][i - 1] == eras[i];
      if rest.Some? then
        ghost var k :| 0 <= k < |eras[1..]| && eras[1..][k] == rest.value && eras[1..][k].id == eraId
                       && forall j :: 0 <= j < k ==> eras[1..][j].id != eraId;
        assert eras[k + 1] == rest.value;
        rest
      else rest
  }

  /** What a route answers. */
  datatype Reply = Rendered(era: Era) | EraJson(era: Era) | NotFound(body: string)

  function Status(r: Reply): int
  {
    if r.NotFound? then 404 else 200
  }

  /** `simulate`: the simulation page for a known era, 404 otherwise. */
  function Simulate(eras: seq<Era>, eraId: string): (r: Reply)
    ensures Status(r) == 404 <==> forall i :: 0 <= i < |eras| ==> eras[i].id != eraId
    ensures r.Rendered? ==> r.era.id == eraId && GetEraData(eras, eraId) == Some(r.era)
    ensures r.NotFound? || r.Rendered?
  {
    match GetEraData(eras, eraId)
    case None => NotFound("Era not found")
    case Some(era) => Rendered(era)
  }

  /** `get_data`: the era as JSON for a known era, a JSON error with 404 otherwise. */
  function GetData(eras: seq<Era>, eraId: string): (r: Reply)
    ensures Status(r) == 404 <==> forall i :: 0 <= i < |eras| ==> eras[i].id != eraId
    ensures r.EraJson? ==> r.era.id == eraId && GetEraData(eras, eraId) == Some(r.era)
    ensures r.NotFound? || r.EraJson?
  {
    match GetEraData(eras, eraId)
    case None => NotFound("{\"error\": \"Era not found\"}")
    case Some(era) => EraJson(era)
  }

  /** Every era the timeline lists can be opened: its link never answers 404. */
  lemma TimelineLinksResolve(eras: seq<Era>, i: nat)
    requires i < |eras|
    ensures Status(Simulate(eras, GetScenarios(eras)[i].id)) == 200
    ensures Status(GetData(eras, GetScenarios(eras)[i].id)) == 200
  {
    assert eras[i].id == GetScenarios(eras)[i].id;
  }

  predicate DistinctIds(eras: seq<Era>)
  {
    forall i, j :: 0 <= i < j < |eras| ==> eras[i].id != eras[j].id
  }

  /** With distinct ids, looking up a summary's id gives back the very era it summarises. */
  lemma {:induction false} SummaryRoundTrip(eras: seq<Era>, i: nat)
    requires DistinctIds(eras) && i < |eras|
    ensures GetEraData(eras, GetScenarios(eras)[i].id) == Some(eras[i])
    ensures Summarize(GetEraData(eras, GetScenarios(eras)[i].id).value) == GetScenarios(eras)[i]
  {
    var id := eras[i].id;
    var r := GetEraData(eras, id);
    assert r.Some?;
    var k :| 0 <= k < |eras| && eras[k] == r.value && eras[k].id == id
             && forall j :: 0 <= j < k ==> eras[j].id != id;
    assert k == i;
  }
}
