/** Personality selection by distance (src/brain_manager.py). */
module BrainManager {
  import opened Wrappers
  import opened Config

  /** The personality for a distance in metres: close visitors get "sassy",
      far ones "poetic", and the band between, both ends included, "standard". */
  function PersonalityName(distance: real): (name: string)
    ensures name == "sassy" <==> distance < 1.0
    ensures name == "poetic" <==> distance > 3.0
    ensures name == "standard" <==> 1.0 <= distance <= 3.0
  {
    if distance < 1.0 then "sassy" else if distance > 3.0 then "poetic" else "standard"
  }

  /** Where the named personality lives. */
  function PersonalityFile(name: string): string {
    "personalities/" + name + ".json"
  }

  const FallbackFile: string := "personalities/standard.json"

  /** Whether `files` holds an object at `path`. */
  predicate ObjectAt(files: Files, path: string) {
    path in files && files[path].Parsed? && files[path].doc.DObject?
  }

  /** `get_personality_cfg(distance)`: the chosen personality's object with
      "name" injected.  Anything else at that path (no file, undecodable
      text, or a top-level value that is not an object, on which the name
      assignment raises TypeError) falls back to the plain standard
      personality: whatever its file decodes to, without "name", or its own
      failure. */
  function GetPersonalityCfg(distance: real, files: Files): (r: Result<Document, LoadError>)
    ensures var path := PersonalityFile(PersonalityName(distance));
      ObjectAt(files, path) ==>
        r == Ok(DObject(files[path].doc.obj["name" := JStr(PersonalityName(distance))]))
    ensures !ObjectAt(files, PersonalityFile(PersonalityName(distance))) ==>
        && (FallbackFile !in files ==> r == Err(FileNotFound(FallbackFile)))
        && (FallbackFile in files && files[FallbackFile].Unreadable? ==> r == Err(Undecodable(FallbackFile)))
        && (FallbackFile in files && files[FallbackFile].Parsed? ==> r == Ok(files[FallbackFile].doc))
  {
    var name := PersonalityName(distance);
    var path := PersonalityFile(name);
    if ObjectAt(files, path) then
      Ok(DObject(files[path].doc.obj["name" := JStr(name)]))
    else if FallbackFile !in files then Err(FileNotFound(FallbackFile))
    else match files[FallbackFile]
      case Unreadable => Err(Undecodable(FallbackFile))
      case Parsed(doc) => Ok(doc)
  }

  /** `get_mock_distance()` at wall-clock second `seconds`: a visitor walking
      closer in a 30-second cycle. */
  function MockDistance(seconds: int): (d: real)
    ensures d == 5.0 || d == 2.0 || d == 0.5
  {
    var s := seconds % 30;
    if s < 10 then 5.0 else if s < 20 then 2.0 else 0.5
  }

  /** The personalities ordered by distance: sassy (closest), standard,
      poetic. */
  function Rank(name: string): int {
    if name == "sassy" then 0 else if name == "standard" then 1 else 2
  }

  /** Closer never selects a "farther" personality. */
  lemma PersonalityMonotone(d1: real, d2: real)
    requires d1 <= d2
    ensures Rank(PersonalityName(d1)) <= Rank(PersonalityName(d2))
  {
  }

  /** The mock visitor cycles poetic, standard, sassy, ten seconds each,
      every thirty seconds. */
  lemma MockCycle(seconds: int)
    ensures MockDistance(seconds + 30) == MockDistance(seconds)
    ensures PersonalityName(MockDistance(seconds)) == ["poetic", "standard", "sassy"][(seconds % 30) / 10]
  {
    assert (seconds + 30) % 30 == seconds % 30;
  }

  /** A successful pick always names itself in the config; only the
      fallback leaves "name" out unless standard.json defines it. */
  lemma InjectedName(distance: real, files: Files)
    requires GetPersonalityCfg(distance, files).Ok?
    requires ObjectAt(files, FallbackFile) ==> "name" !in files[FallbackFile].doc.obj
    ensures var r := GetPersonalityCfg(distance, files).value;
      r.DObject? && "name" in r.obj <==> ObjectAt(files, PersonalityFile(PersonalityName(distance)))
  {
  }
}
