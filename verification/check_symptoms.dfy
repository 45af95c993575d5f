/** The serverless strep-check endpoint (api/check-symptoms.js): only POST is
    allowed; the two reported signs select one of four recommendations. */
module CheckSymptoms {
  import opened Wrappers

  /** A JSON value as it arrives in the parsed request body. */
  datatype Json = Null | Bool(b: bool) | Num(n: int) | Str(s: string) | Arr(items: seq<Json>) | Obj(fields: map<string, Json>)

  /** JavaScript truthiness of a JSON value. */
  predicate Truthy(v: Json) {
    match v
    case Null => false
    case Bool(b) => b
    case Num(n) => n != 0
    case Str(s) => s != ""
    case Arr(_) => true
    case Obj(_) => true
  }

  /** A key of an object: a missing key reads as `undefined` (`Null` here). */
  function Field(body: map<string, Json>, key: string): Json {
    if key in body then body[key] else Null
  }

  /** Destructuring `const { key } = body` for a body that is not `null`: an object
      yields its key, any other value (a string, number, boolean or array) yields
      `undefined`. */
  function BodyField(body: Json, key: string): (r: Json)
    ensures !body.Obj? ==> r == Null
    ensures body.Obj? && key in body.fields ==> r == body.fields[key]
  {
    if body.Obj? then Field(body.fields, key) else Null
  }

  datatype Response =
    | Recommendation(status: nat, recommendation: string)
    | Error(status: nat, error: string)

  const SeekPrefix := "Seek Antibiotics"
  const MonitorPrefix := "Monitor symptoms"
  const NoTreatmentPrefix := "No treatment needed"
  const SeekAntibiotics := SeekPrefix + ": Both pus on tonsils and tender glands detected."
  const PusSign := "Pus on tonsils"
  const GlandsSign := "Tender glands"
  const PusTail := ": " + PusSign + " detected, but no tender glands."
  const GlandsTail := ": " + GlandsSign + " detected, but no pus on tonsils."
  const MonitorPus := MonitorPrefix + PusTail
  const MonitorGlands := MonitorPrefix + GlandsTail
  const NoTreatment := NoTreatmentPrefix + ": No concerning symptoms detected."

  /** The four recommendations are pairwise different texts. */
  lemma RecommendationsDistinct()
    ensures SeekAntibiotics != MonitorPus && SeekAntibiotics != MonitorGlands && SeekAntibiotics != NoTreatment
    ensures MonitorPus != MonitorGlands && MonitorPus != NoTreatment && MonitorGlands != NoTreatment
  {
    assert SeekAntibiotics[0] == 'S' && MonitorPus[0] == 'M' && MonitorGlands[0] == 'M' && NoTreatment[0] == 'N';
    assert PusSign[0] == 'P' && GlandsSign[0] == 'T';
    assert PusTail[2] == PusSign[0] && GlandsTail[2] == GlandsSign[0];
    assert MonitorPus[|MonitorPrefix| + 2] == PusTail[2];
    assert MonitorGlands[|MonitorPrefix| + 2] == GlandsTail[2];
  }

  /** The if/else chain over the two signs. */
  function Recommend(pusOnTonsils: bool, tenderGlands: bool): (r: string)
    ensures r == SeekAntibiotics <==> pusOnTonsils && tenderGlands
    ensures r == MonitorPus <==> pusOnTonsils && !tenderGlands
    ensures r == MonitorGlands <==> !pusOnTonsils && tenderGlands
    ensures r == NoTreatment <==> !pusOnTonsils && !tenderGlands
  {
    RecommendationsDistinct();
    if pusOnTonsils && tenderGlands then SeekAntibiotics
    else if pusOnTonsils then MonitorPus
    else if tenderGlands then MonitorGlands
    else NoTreatment
  }

  predicate StartsWith(s: string, prefix: string) {
    |prefix| <= |s| && s[..|prefix|] == prefix
  }

  /** Only the both-signs branch advises antibiotics; exactly one sign advises monitoring. */
  lemma RecommendPrefixes(pusOnTonsils: bool, tenderGlands: bool)
    ensures StartsWith(Recommend(pusOnTonsils, tenderGlands), SeekPrefix) <==> pusOnTonsils && tenderGlands
    ensures StartsWith(Recommend(pusOnTonsils, tenderGlands), MonitorPrefix) <==> pusOnTonsils != tenderGlands
    ensures StartsWith(Recommend(pusOnTonsils, tenderGlands), NoTreatmentPrefix) <==> !pusOnTonsils && !tenderGlands
  {
    var r := Recommend(pusOnTonsils, tenderGlands);
    assert SeekPrefix[0] == 'S' && MonitorPrefix[0] == 'M' && NoTreatmentPrefix[0] == 'N';
    assert r[0] == 'S' <==> pusOnTonsils && tenderGlands;
    assert r[0] == 'M' <==> pusOnTonsils != tenderGlands;
    assert r[0] == 'N' <==> !pusOnTonsils && !tenderGlands;
  }

  /** `handler(req, res)`. `body` is `req.body`: `None` when it is `undefined`. */
  function Handler(httpMethod: string, body: Option<Json>): (r: Response)
    ensures httpMethod != "POST" <==> r == Error(405, "Method not allowed")
    ensures httpMethod == "POST" ==> (r == Error(500, "Internal server error") <==> body == None || body == Some(Null))
    ensures httpMethod == "POST" && body.Some? && body.value != Null ==>
      r == Recommendation(200, Recommend(Truthy(BodyField(body.value, "pusOnTonsils")), Truthy(BodyField(body.value, "tenderGlands"))))
    ensures httpMethod == "POST" && body.Some? && body.value != Null && !body.value.Obj? ==>
      r == Recommendation(200, NoTreatment)
  {
    if httpMethod != "POST" then Error(405, "Method not allowed")
    else match body
      // destructuring an undefined or null body throws inside the try block
      case None => Error(500, "Internal server error")
      case Some(Null) => Error(500, "Internal server error")
      case Some(value) =>
        var pusOnTonsils := Truthy(BodyField(value, "pusOnTonsils"));
        var tenderGlands := Truthy(BodyField(value, "tenderGlands"));
        Recommendation(200, Recommend(pusOnTonsils, tenderGlands))
  }
}
