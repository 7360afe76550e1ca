/** The play normaliser and the snapshot envelope of `server/mlb_data.py`.
    A feed play becomes a record with a fixed key set: mandatory fields are
    read with `[...]` and a missing one fails the whole batch; optional fields
    are read with `.get` and become null; absent lists become `[]`. */
module MlbData {
  import opened JsonValue

  const ResultKeys: seq<string> :=
    ["type", "event", "eventType", "description", "rbi", "awayScore", "homeScore", "isOut"]
  const AboutKeys: seq<string> :=
    ["atBatIndex", "halfInning", "isTopInning", "inning", "startTime", "endTime", "isComplete", "isScoringPlay"]
  const CountKeys: seq<string> := ["balls", "strikes", "outs"]
  const MovementKeys: seq<string> := ["originBase", "start", "end", "outBase", "isOut", "outNumber"]
  /** The keys of a runner's `details`, apart from the nested `runner` object. */
  const DetailKeys: seq<string> :=
    ["event", "eventType", "movementReason", "responsiblePitcher", "isScoringEvent", "rbi", "earned", "teamUnearned", "playIndex"]
  const RunnerRefKeys: seq<string> := ["id", "fullName", "link"]
  const PlayerKeys: seq<string> := ["id", "link"]
  const PositionKeys: seq<string> := ["code", "name", "type", "abbreviation"]
  const PlayKeys: seq<string> := ["result", "about", "count", "runners", "pitchIndex", "actionIndex"]
  const RunnerKeys: seq<string> := ["movement", "details", "credits"]
  const CreditKeys: seq<string> := ["player", "position", "credit"]

  function KeySet(keys: seq<string>): set<string> {
    set k | k in keys
  }

  // ---------------------------------------------------------------------------
  // What the source demands of a feed play, and the shape it promises back.

  /** `v` is a dict holding every key of `keys`. */
  predicate HasKeys(v: Json, keys: seq<string>) {
    v.JObj? && forall k :: k in keys ==> k in v.fields
  }

  /** `v.get(key, {})` is a dict: the key is absent or holds a dict. */
  predicate DictOrAbsent(v: Json, key: string) {
    v.JObj? && (key in v.fields ==> v.fields[key].JObj?)
  }

  /** `v.get(key, [])`, for a dict `v`; every caller has already subscripted `v`,
      so it is known to be a dict there. */
  function ListField(v: Json, key: string): Json {
    if v.JObj? && key in v.fields then v.fields[key] else JArr([])
  }

  /** The elements a comprehension over `v.get(key, [])` visits (none when it raises). */
  function ListItems(v: Json, key: string): seq<Json> {
    LoopItems(ListField(v, key)).GetOr([])
  }

  predicate CreditWellFormed(c: Json) {
    DictOrAbsent(c, "player") && DictOrAbsent(c, "position")
  }

  predicate RunnerWellFormed(rn: Json) {
    && HasKeys(rn, ["movement", "details"])
    && rn.fields["movement"].JObj?
    && DictOrAbsent(rn.fields["details"], "runner")
    && LoopItems(ListField(rn, "credits")).Some?
    && forall c :: c in ListItems(rn, "credits") ==> CreditWellFormed(c)
  }

  /** Every mandatory key of a play is present where the source reads it. */
  predicate PlayWellFormed(p: Json) {
    && HasKeys(p, ["result", "about", "count"])
    && HasKeys(p.fields["result"], ResultKeys)
    && HasKeys(p.fields["about"], AboutKeys)
    && HasKeys(p.fields["count"], CountKeys)
    && LoopItems(ListField(p, "runners")).Some?
    && forall rn :: rn in ListItems(p, "runners") ==> RunnerWellFormed(rn)
  }

  /** `v` is a dict with exactly the keys `keys`. */
  predicate ObjWithKeys(v: Json, keys: seq<string>) {
    v.JObj? && v.fields.Keys == KeySet(keys)
  }

  /** A dict with exactly the keys `keys` has each of them. */
  lemma HasListedKey(v: Json, keys: seq<string>, k: string)
    requires ObjWithKeys(v, keys) && k in keys
    ensures Item(v, k) == Some(Field(v, k))
  {
    assert k in KeySet(keys);
  }

  predicate CreditShaped(v: Json) {
    && ObjWithKeys(v, CreditKeys)
    && ObjWithKeys(Field(v, "player"), PlayerKeys)
    && ObjWithKeys(Field(v, "position"), PositionKeys)
  }

  predicate RunnerShaped(v: Json) {
    && ObjWithKeys(v, RunnerKeys)
    && ObjWithKeys(Field(v, "movement"), MovementKeys)
    && ObjWithKeys(Field(v, "details"), DetailKeys + ["runner"])
    && ObjWithKeys(Field(Field(v, "details"), "runner"), RunnerRefKeys)
    && Field(v, "credits").JArr?
    && forall c :: c in Items(Field(v, "credits")) ==> CreditShaped(c)
  }

  /** The fixed record shape of a normalised play. */
  predicate PlayShaped(v: Json) {
    && ObjWithKeys(v, PlayKeys)
    && ObjWithKeys(Field(v, "result"), ResultKeys)
    && ObjWithKeys(Field(v, "about"), AboutKeys)
    && ObjWithKeys(Field(v, "count"), CountKeys)
    && Field(v, "runners").JArr?
    && forall rn :: rn in Items(Field(v, "runners")) ==> RunnerShaped(rn)
  }

  // ---------------------------------------------------------------------------
  // The dict literals of `get_current_play_info`.

  /** A dict literal `{k: v[k] for each k in keys}`: every key is mandatory. */
  function Pick(v: Json, keys: seq<string>): Option<map<string, Json>>
    requires keys != []
  {
    var x :- Item(v, keys[0]);
    if |keys| == 1 then Some(map[keys[0] := x])
    else
      var rest :- Pick(v, keys[1..]);
      Some(rest[keys[0] := x])
  }

  /** The mandatory pick fails exactly when a key is missing (or `v` is no
      dict); otherwise it has exactly the listed keys, each with `v`'s value. */
  lemma {:induction false} PickSpec(v: Json, keys: seq<string>)
    requires keys != []
    ensures Pick(v, keys).Some? <==> HasKeys(v, keys)
    ensures Pick(v, keys).Some? ==>
      && Pick(v, keys).value.Keys == KeySet(keys)
      && forall k :: k in keys ==> Pick(v, keys).value[k] == v.fields[k]
  {
    if |keys| > 1 {
      PickSpec(v, keys[1..]);
      assert forall k :: k in keys ==> k == keys[0] || k in keys[1..];
    }
  }

  /** A dict literal `{k: v.get(k) for each k in keys}`: every key is optional. */
  function PickOptional(v: Json, keys: seq<string>): Option<map<string, Json>>
    requires keys != []
  {
    if !v.JObj? then None
    else if |keys| == 1 then Some(map[keys[0] := Field(v, keys[0])])
    else
      var rest := PickOptional(v, keys[1..]);
      if rest.None? then None else Some(rest.value[keys[0] := Field(v, keys[0])])
  }

  /** The optional pick fails exactly when `v` is no dict; otherwise it has
      exactly the listed keys, each with `v`'s value or null. */
  lemma {:induction false} PickOptionalSpec(v: Json, keys: seq<string>)
    requires keys != []
    ensures PickOptional(v, keys).Some? <==> v.JObj?
    ensures PickOptional(v, keys).Some? ==>
      && PickOptional(v, keys).value.Keys == KeySet(keys)
      && forall k :: k in keys ==> PickOptional(v, keys).value[k] == Field(v, k)
  {
    if |keys| > 1 {
      PickOptionalSpec(v, keys[1..]);
      assert forall k :: k in keys ==> k == keys[0] || k in keys[1..];
    }
  }

  // The dict literals of the output records, and the shapes they have.

  function CreditRecord(player: map<string, Json>, position: map<string, Json>, credit: Json): Json {
    JObj(map["player" := JObj(player), "position" := JObj(position), "credit" := credit])
  }

  lemma CreditRecordFields(player: map<string, Json>, position: map<string, Json>, credit: Json)
    ensures CreditRecord(player, position, credit).fields.Keys == KeySet(CreditKeys)
    ensures Field(CreditRecord(player, position, credit), "player") == JObj(player)
    ensures Field(CreditRecord(player, position, credit), "position") == JObj(position)
    ensures Field(CreditRecord(player, position, credit), "credit") == credit
  {
  }

  lemma CreditRecordShaped(player: map<string, Json>, position: map<string, Json>, credit: Json)
    requires player.Keys == KeySet(PlayerKeys) && position.Keys == KeySet(PositionKeys)
    ensures CreditShaped(CreditRecord(player, position, credit))
  {
    CreditRecordFields(player, position, credit);
  }

  function RunnerRecord(movement: map<string, Json>, details: map<string, Json>, credits: seq<Json>): Json {
    JObj(map["movement" := JObj(movement), "details" := JObj(details), "credits" := JArr(credits)])
  }

  lemma RunnerRecordFields(movement: map<string, Json>, details: map<string, Json>, credits: seq<Json>)
    ensures RunnerRecord(movement, details, credits).fields.Keys == KeySet(RunnerKeys)
    ensures Field(RunnerRecord(movement, details, credits), "movement") == JObj(movement)
    ensures Field(RunnerRecord(movement, details, credits), "details") == JObj(details)
    ensures Field(RunnerRecord(movement, details, credits), "credits") == JArr(credits)
  {
  }

  /** Adding the nested `runner` object to the flat details gives the full detail key set. */
  lemma DetailRecordKeys(details: map<string, Json>, runnerRef: Json)
    requires details.Keys == KeySet(DetailKeys)
    ensures details["runner" := runnerRef].Keys == KeySet(DetailKeys + ["runner"])
    ensures Field(JObj(details["runner" := runnerRef]), "runner") == runnerRef
  {
    assert KeySet(DetailKeys + ["runner"]) == KeySet(DetailKeys) + {"runner"};
  }

  lemma RunnerRecordShaped(movement: map<string, Json>, details: map<string, Json>, runnerRef: map<string, Json>, credits: seq<Json>)
    requires movement.Keys == KeySet(MovementKeys) && details.Keys == KeySet(DetailKeys)
    requires runnerRef.Keys == KeySet(RunnerRefKeys)
    requires forall c :: c in credits ==> CreditShaped(c)
    ensures RunnerShaped(RunnerRecord(movement, details["runner" := JObj(runnerRef)], credits))
  {
    RunnerRecordFields(movement, details["runner" := JObj(runnerRef)], credits);
    DetailRecordKeys(details, JObj(runnerRef));
  }

  function PlayRecord(result: map<string, Json>, about: map<string, Json>, count: map<string, Json>,
                      runners: seq<Json>, pitchIndex: Json, actionIndex: Json): Json
  {
    JObj(map[
      "result" := JObj(result),
      "about" := JObj(about),
      "count" := JObj(count),
      "runners" := JArr(runners),
      "pitchIndex" := pitchIndex,
      "actionIndex" := actionIndex])
  }

  lemma PlayRecordFields(result: map<string, Json>, about: map<string, Json>, count: map<string, Json>,
                         runners: seq<Json>, pitchIndex: Json, actionIndex: Json)
    ensures var out := PlayRecord(result, about, count, runners, pitchIndex, actionIndex);
      && out.fields.Keys == KeySet(PlayKeys)
      && Field(out, "result") == JObj(result) && Field(out, "about") == JObj(about)
      && Field(out, "count") == JObj(count) && Field(out, "runners") == JArr(runners)
      && Field(out, "pitchIndex") == pitchIndex && Field(out, "actionIndex") == actionIndex
  {
  }

  lemma PlayRecordShaped(result: map<string, Json>, about: map<string, Json>, count: map<string, Json>,
                         runners: seq<Json>, pitchIndex: Json, actionIndex: Json)
    requires result.Keys == KeySet(ResultKeys) && about.Keys == KeySet(AboutKeys) && count.Keys == KeySet(CountKeys)
    requires forall rn :: rn in runners ==> RunnerShaped(rn)
    ensures PlayShaped(PlayRecord(result, about, count, runners, pitchIndex, actionIndex))
  {
    PlayRecordFields(result, about, count, runners, pitchIndex, actionIndex);
  }

  /** One entry of a runner's `credits` as the inner comprehension builds it. */
  function NormalizeCredit(c: Json): Option<Json> {
    var player :- Get(c, "player", JObj(map[]));
    var playerOut :- PickOptional(player, PlayerKeys);
    var position :- Get(c, "position", JObj(map[]));
    var positionOut :- PickOptional(position, PositionKeys);
    var credit :- GetNone(c, "credit");
    Some(CreditRecord(playerOut, positionOut, credit))
  }

  /** A credit normalises exactly when it is a dict whose `player` and
      `position` are dicts or absent; the result has the fixed key set, every
      leaf is the source's value or null, and a missing sub-object gives nulls. */
  lemma NormalizeCreditSpec(c: Json)
    ensures NormalizeCredit(c).Some? <==> CreditWellFormed(c)
    ensures NormalizeCredit(c).Some? ==>
      var out := NormalizeCredit(c).value;
      && CreditShaped(out)
      && (forall k :: k in PlayerKeys ==> Field(Field(out, "player"), k) == Field(Field(c, "player"), k))
      && (forall k :: k in PositionKeys ==> Field(Field(out, "position"), k) == Field(Field(c, "position"), k))
      && Field(out, "credit") == Field(c, "credit")
  {
    PickOptionalSpec(Get(c, "player", JObj(map[])).GetOr(JNull), PlayerKeys);
    PickOptionalSpec(Get(c, "position", JObj(map[])).GetOr(JNull), PositionKeys);
    if CreditWellFormed(c) {
      var player := Get(c, "player", JObj(map[])).value;
      var playerOut := PickOptional(player, PlayerKeys).value;
      var position := Get(c, "position", JObj(map[])).value;
      var positionOut := PickOptional(position, PositionKeys).value;
      var credit := GetNone(c, "credit").value;
      assert NormalizeCredit(c) == Some(CreditRecord(playerOut, positionOut, credit));
      CreditRecordShaped(playerOut, positionOut, credit);
      CreditRecordFields(playerOut, positionOut, credit);
    }
  }

  /** One entry of a play's `runners` as the outer comprehension builds it. */
  function NormalizeRunner(rn: Json): Option<Json> {
    var movement :- Item(rn, "movement");
    var movementOut :- PickOptional(movement, MovementKeys);
    var details :- Item(rn, "details");
    var detailsOut :- PickOptional(details, DetailKeys);
    var runnerRef :- Get(details, "runner", JObj(map[]));
    var runnerOut :- PickOptional(runnerRef, RunnerRefKeys);
    var creditItems :- LoopItems(ListField(rn, "credits"));
    var credits :- MapAll(NormalizeCredit, creditItems);
    Some(RunnerRecord(movementOut, detailsOut["runner" := JObj(runnerOut)], credits))
  }

  /** The credits comprehension succeeds exactly when every credit is well
      formed, and then yields one shaped record per credit. */
  lemma NormalizeCreditsSpec(items: seq<Json>)
    ensures MapAll(NormalizeCredit, items).Some? <==> forall c :: c in items ==> CreditWellFormed(c)
    ensures MapAll(NormalizeCredit, items).Some? ==> forall c :: c in MapAll(NormalizeCredit, items).value ==> CreditShaped(c)
  {
    forall c | c in items {
      NormalizeCreditSpec(c);
    }
    var credits := MapAll(NormalizeCredit, items);
    if credits.Some? {
      forall c | c in credits.value ensures CreditShaped(c) {
        var i :| 0 <= i < |credits.value| && credits.value[i] == c;
        NormalizeCreditSpec(items[i]);
      }
    }
  }

  /** `"runner"` is not one of the flat detail keys, so adding it keeps them. */
  lemma RunnerNotDetailKey()
    ensures "runner" !in DetailKeys
  {
  }

  /** The contracts of the three optional picks a runner goes through. */
  lemma RunnerPickSpecs(rn: Json)
    ensures PickOptional(Field(rn, "movement"), MovementKeys).Some? <==> Field(rn, "movement").JObj?
    ensures PickOptional(Field(rn, "details"), DetailKeys).Some? <==> Field(rn, "details").JObj?
    ensures var runnerRef := Get(Field(rn, "details"), "runner", JObj(map[])).GetOr(JNull);
      PickOptional(runnerRef, RunnerRefKeys).Some? <==> runnerRef.JObj?
    ensures PickOptional(Field(rn, "movement"), MovementKeys).Some? ==>
      PickOptional(Field(rn, "movement"), MovementKeys).value.Keys == KeySet(MovementKeys)
    ensures PickOptional(Field(rn, "details"), DetailKeys).Some? ==>
      PickOptional(Field(rn, "details"), DetailKeys).value.Keys == KeySet(DetailKeys)
    ensures var runnerRef := Get(Field(rn, "details"), "runner", JObj(map[])).GetOr(JNull);
      PickOptional(runnerRef, RunnerRefKeys).Some? ==> PickOptional(runnerRef, RunnerRefKeys).value.Keys == KeySet(RunnerRefKeys)
  {
    PickOptionalSpec(Field(rn, "movement"), MovementKeys);
    PickOptionalSpec(Field(rn, "details"), DetailKeys);
    PickOptionalSpec(Get(Field(rn, "details"), "runner", JObj(map[])).GetOr(JNull), RunnerRefKeys);
  }

  lemma NormalizeRunnerNeedsWellFormed(rn: Json)
    requires NormalizeRunner(rn).Some?
    ensures RunnerWellFormed(rn)
  {
    RunnerPickSpecs(rn);
    NormalizeCreditsSpec(LoopItems(ListField(rn, "credits")).value);
  }

  /** A runner normalises exactly when `movement` and `details` are present
      dicts, `details.runner` is a dict or absent and every credit normalises. */
  lemma NormalizeRunnerOk(rn: Json)
    ensures NormalizeRunner(rn).Some? <==> RunnerWellFormed(rn)
  {
    if RunnerWellFormed(rn) {
      NormalizeRunnerParts(rn);
    }
    if NormalizeRunner(rn).Some? {
      NormalizeRunnerNeedsWellFormed(rn);
    }
  }

  /** A normalised runner has the fixed key set; its `movement`, `details` and
      `details.runner` are the optional picks of the source's objects (a missing
      `details.runner` reads as `{}`), and its credits are the normalised
      credits in their order. */
  lemma NormalizeRunnerParts(rn: Json)
    requires RunnerWellFormed(rn)
    ensures NormalizeRunner(rn).Some?
    ensures var out := NormalizeRunner(rn).value;
      && RunnerShaped(out)
      && Field(out, "movement") == JObj(PickOptional(Field(rn, "movement"), MovementKeys).value)
      && Field(out, "details") == JObj(PickOptional(Field(rn, "details"), DetailKeys).value["runner" :=
           JObj(PickOptional(Get(Field(rn, "details"), "runner", JObj(map[])).value, RunnerRefKeys).value)])
      && MapAll(NormalizeCredit, ListItems(rn, "credits")) == Some(Items(Field(out, "credits")))
  {
    RunnerPickSpecs(rn);
    var movement, details := Field(rn, "movement"), Field(rn, "details");
    assert Item(rn, "movement") == Some(movement) && Item(rn, "details") == Some(details);
    var runnerRef := Get(details, "runner", JObj(map[])).value;
    var movementOut := PickOptional(movement, MovementKeys).value;
    var detailsOut := PickOptional(details, DetailKeys).value;
    var runnerOut := PickOptional(runnerRef, RunnerRefKeys).value;
    var creditItems := LoopItems(ListField(rn, "credits")).value;
    NormalizeCreditsSpec(creditItems);
    var credits := MapAll(NormalizeCredit, creditItems).value;
    RunnerRecordShaped(movementOut, detailsOut, runnerOut, credits);
    RunnerRecordFields(movementOut, detailsOut["runner" := JObj(runnerOut)], credits);
    assert NormalizeRunner(rn) == Some(RunnerRecord(movementOut, detailsOut["runner" := JObj(runnerOut)], credits));
  }

  /** Every leaf of a normalised runner's `movement`, `details` and
      `details.runner` is the source's value, or null where the source has none. */
  lemma NormalizeRunnerFields(rn: Json)
    requires RunnerWellFormed(rn)
    ensures NormalizeRunner(rn).Some?
    ensures var out := NormalizeRunner(rn).value;
      && (forall k :: k in MovementKeys ==> Field(Field(out, "movement"), k) == Field(Field(rn, "movement"), k))
      && (forall k :: k in DetailKeys ==> Field(Field(out, "details"), k) == Field(Field(rn, "details"), k))
      && (forall k :: k in RunnerRefKeys ==>
            Field(Field(Field(out, "details"), "runner"), k) == Field(Field(Field(rn, "details"), "runner"), k))
  {
    NormalizeRunnerParts(rn);
    RunnerNotDetailKey();
    PickOptionalSpec(Field(rn, "movement"), MovementKeys);
    PickOptionalSpec(Field(rn, "details"), DetailKeys);
    PickOptionalSpec(Get(Field(rn, "details"), "runner", JObj(map[])).GetOr(JNull), RunnerRefKeys);
  }

  /** One play of the feed's `allPlays` as `get_current_play_info` builds it. */
  function NormalizePlay(p: Json): Option<Json> {
    var result :- Item(p, "result");
    var resultOut :- Pick(result, ResultKeys);
    var about :- Item(p, "about");
    var aboutOut :- Pick(about, AboutKeys);
    var count :- Item(p, "count");
    var countOut :- Pick(count, CountKeys);
    var runnerItems :- LoopItems(ListField(p, "runners"));
    var runners :- MapAll(NormalizeRunner, runnerItems);
    Some(PlayRecord(resultOut, aboutOut, countOut, runners, ListField(p, "pitchIndex"), ListField(p, "actionIndex")))
  }

  /** The runners comprehension succeeds exactly when every runner is well
      formed, and then yields one shaped record per runner. */
  lemma NormalizeRunnersSpec(items: seq<Json>)
    ensures MapAll(NormalizeRunner, items).Some? <==> forall rn :: rn in items ==> RunnerWellFormed(rn)
    ensures MapAll(NormalizeRunner, items).Some? ==> forall rn :: rn in MapAll(NormalizeRunner, items).value ==> RunnerShaped(rn)
  {
    forall rn | rn in items {
      NormalizeRunnerOk(rn);
    }
    var runners := MapAll(NormalizeRunner, items);
    if runners.Some? {
      forall rn | rn in runners.value ensures RunnerShaped(rn) {
        var i :| 0 <= i < |runners.value| && runners.value[i] == rn;
        NormalizeRunnerParts(items[i]);
      }
    }
  }

  /** The contracts of the three mandatory picks a play goes through. */
  lemma PlayPickSpecs(p: Json)
    ensures Pick(Field(p, "result"), ResultKeys).Some? <==> HasKeys(Field(p, "result"), ResultKeys)
    ensures Pick(Field(p, "about"), AboutKeys).Some? <==> HasKeys(Field(p, "about"), AboutKeys)
    ensures Pick(Field(p, "count"), CountKeys).Some? <==> HasKeys(Field(p, "count"), CountKeys)
    ensures Pick(Field(p, "result"), ResultKeys).Some? ==> Pick(Field(p, "result"), ResultKeys).value.Keys == KeySet(ResultKeys)
    ensures Pick(Field(p, "about"), AboutKeys).Some? ==> Pick(Field(p, "about"), AboutKeys).value.Keys == KeySet(AboutKeys)
    ensures Pick(Field(p, "count"), CountKeys).Some? ==> Pick(Field(p, "count"), CountKeys).value.Keys == KeySet(CountKeys)
  {
    PickSpec(Field(p, "result"), ResultKeys);
    PickSpec(Field(p, "about"), AboutKeys);
    PickSpec(Field(p, "count"), CountKeys);
  }

  lemma NormalizePlayNeedsWellFormed(p: Json)
    requires NormalizePlay(p).Some?
    ensures PlayWellFormed(p)
  {
    PlayPickSpecs(p);
    NormalizeRunnersSpec(LoopItems(ListField(p, "runners")).value);
  }

  /** A play normalises exactly when every mandatory key is present: all
      `result`, `about` and `count` fields and, in every runner, `movement`
      and `details`. Nothing of a partly well-formed play is returned. */
  lemma NormalizePlayOk(p: Json)
    ensures NormalizePlay(p).Some? <==> PlayWellFormed(p)
  {
    if PlayWellFormed(p) {
      NormalizePlayParts(p);
    }
    if NormalizePlay(p).Some? {
      NormalizePlayNeedsWellFormed(p);
    }
  }

  /** A normalised play has the fixed key set; its `result`, `about` and
      `count` are the mandatory picks of the source's objects, its runners are
      the normalised runners in their order, and `pitchIndex` and `actionIndex`
      default to `[]`. */
  lemma NormalizePlayParts(p: Json)
    requires PlayWellFormed(p)
    ensures NormalizePlay(p).Some?
    ensures var out := NormalizePlay(p).value;
      && PlayShaped(out)
      && Field(out, "result") == JObj(Pick(Field(p, "result"), ResultKeys).value)
      && Field(out, "about") == JObj(Pick(Field(p, "about"), AboutKeys).value)
      && Field(out, "count") == JObj(Pick(Field(p, "count"), CountKeys).value)
      && MapAll(NormalizeRunner, ListItems(p, "runners")) == Some(Items(Field(out, "runners")))
      && Field(out, "pitchIndex") == ListField(p, "pitchIndex")
      && Field(out, "actionIndex") == ListField(p, "actionIndex")
  {
    PlayPickSpecs(p);
    var resultOut := Pick(p.fields["result"], ResultKeys).value;
    var aboutOut := Pick(p.fields["about"], AboutKeys).value;
    var countOut := Pick(p.fields["count"], CountKeys).value;
    var runnerItems := LoopItems(ListField(p, "runners")).value;
    NormalizeRunnersSpec(runnerItems);
    var runners := MapAll(NormalizeRunner, runnerItems).value;
    var pitchIndex := ListField(p, "pitchIndex");
    var actionIndex := ListField(p, "actionIndex");
    PlayRecordShaped(resultOut, aboutOut, countOut, runners, pitchIndex, actionIndex);
    PlayRecordFields(resultOut, aboutOut, countOut, runners, pitchIndex, actionIndex);
    assert NormalizePlay(p) == Some(PlayRecord(resultOut, aboutOut, countOut, runners, pitchIndex, actionIndex));
  }

  /** A normalised play copies all eight `result`, eight `about` and three
      `count` fields of the source play. */
  lemma NormalizePlayFields(p: Json)
    requires PlayWellFormed(p)
    ensures NormalizePlay(p).Some?
    ensures var out := NormalizePlay(p).value;
      && (forall k :: k in ResultKeys ==> Field(Field(out, "result"), k) == Field(Field(p, "result"), k))
      && (forall k :: k in AboutKeys ==> Field(Field(out, "about"), k) == Field(Field(p, "about"), k))
      && (forall k :: k in CountKeys ==> Field(Field(out, "count"), k) == Field(Field(p, "count"), k))
  {
    NormalizePlayParts(p);
    PickSpec(Field(p, "result"), ResultKeys);
    PickSpec(Field(p, "about"), AboutKeys);
    PickSpec(Field(p, "count"), CountKeys);
  }

  // ---------------------------------------------------------------------------
  // The feed and snapshot documents.

  /** `data['liveData']['plays']['allPlays']`, as the loop over it sees it. */
  function AllPlays(data: Json): Option<seq<Json>> {
    var liveData :- Item(data, "liveData");
    var plays :- Item(liveData, "plays");
    var allPlays :- Item(plays, "allPlays");
    LoopItems(allPlays)
  }

  /** `get_current_play_info` on an already parsed response body: the loop
      appends one normalised record per feed play, and any exception makes
      the whole call return `None`. */
  method GetCurrentPlayInfo(data: Json) returns (info: Option<seq<Json>>)
    ensures AllPlays(data).None? ==> info.None?
    ensures AllPlays(data).Some? ==>
      var raw := AllPlays(data).value;
      && (info.Some? <==> forall i :: 0 <= i < |raw| ==> PlayWellFormed(raw[i]))
      && (info.Some? ==> |info.value| == |raw| && forall i :: 0 <= i < |raw| ==> NormalizePlay(raw[i]) == Some(info.value[i]))
  {
    var allPlays := AllPlays(data);
    if allPlays.None? {
      return None;
    }
    var raw := allPlays.value;
    var playInfoList: seq<Json> := [];
    var i := 0;
    while i < |raw|
      invariant 0 <= i <= |raw| && |playInfoList| == i
      invariant forall j :: 0 <= j < i ==> NormalizePlay(raw[j]) == Some(playInfoList[j])
      invariant forall j :: 0 <= j < i ==> PlayWellFormed(raw[j])
    {
      var playInfo := NormalizePlay(raw[i]);
      NormalizePlayOk(raw[i]);
      if playInfo.None? {
        return None;
      }
      playInfoList := playInfoList + [playInfo.value];
      i := i + 1;
    }
    return Some(playInfoList);
  }

  /** The document `save_live_data` writes: `{liveData: {plays: {allPlays: plays}}}`. */
  function Envelope(plays: seq<Json>): (doc: Json)
    ensures AllPlays(doc) == Some(plays)
  {
    JObj(map["liveData" := JObj(map["plays" := JObj(map["allPlays" := JArr(plays)])])])
  }

  /** The content of `liveData.json` after `save_live_data(plays)`, given its
      content `file` before: a `None` or empty list writes nothing; otherwise
      the file is truncated and replaced by the envelope, which reads back as
      the saved list. */
  function SaveLiveData(plays: Option<seq<Json>>, file: Option<Json>): (written: Option<Json>)
    ensures (plays.None? || plays.value == []) ==> written == file
    ensures plays.Some? && plays.value != [] ==> written.Some? && AllPlays(written.value) == plays
  {
    if plays.Some? && plays.value != [] then Some(Envelope(plays.value)) else file
  }
}
