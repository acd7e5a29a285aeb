/** Validation of a judge's grade against ground truth: a closed world of defect ids. */
module Judge {
  import opened Prelude
  import opened Json

  datatype Defect = Defect(id: string, found: bool)

  datatype Grade = Grade(itemPass: bool, defects: seq<Defect>, falseFindings: int, neutralMatched: int)

  predicate WellFormedDefect(d: Json) {
    d.JObject? && AsText(Get(d, "id")).Some? && AsBool(Get(d, "found")).Some?
  }

  function DefectOf(d: Json): Defect
    requires WellFormedDefect(d)
  {
    Defect(AsText(Get(d, "id")).value, AsBool(Get(d, "found")).value)
  }

  predicate WellFormedDefects(v: Option<Json>) {
    v.Some? && v.value.JArray? && forall i :: 0 <= i < |v.value.items| ==> WellFormedDefect(v.value.items[i])
  }

  function DefectsOf(items: seq<Json>): seq<Defect>
    requires forall i :: 0 <= i < |items| ==> WellFormedDefect(items[i])
  {
    seq(|items|, i requires 0 <= i < |items| => DefectOf(items[i]))
  }

  predicate DistinctIds(defects: seq<Defect>) {
    forall i, j :: 0 <= i < j < |defects| ==> defects[i].id != defects[j].id
  }

  function Ids(defects: seq<Defect>): set<string> {
    set i | 0 <= i < |defects| :: defects[i].id
  }

  predicate AllFound(defects: seq<Defect>) {
    forall i :: 0 <= i < |defects| ==> defects[i].found
  }

  /** An integer that is not a boolean; an absent field takes the default. */
  function IntegerOr(v: Option<Json>, default: Option<int>): Option<int> {
    if v.None? then default else if v.value.JInteger? then Some(v.value.integer) else None
  }

  /** The grade that an answer states, if its shape is right. */
  function StatedGrade(data: Json): Option<Grade> {
    var defects := Get(data, "defects");
    var falseFindings := IntegerOr(Get(data, "false_findings"), None);
    var neutral := IntegerOr(Get(data, "neutral_matched"), Some(0));
    var itemPass := AsBool(Get(data, "item_pass"));
    if WellFormedDefects(defects) && falseFindings.Some? && neutral.Some? && itemPass.Some?
    then Some(Grade(itemPass.value, DefectsOf(defects.value.items), falseFindings.value, neutral.value))
    else None
  }

  /** One entry per ground-truth defect and no other; a pass exactly as the rubric's rule computes it. */
  predicate Consistent(g: Grade, truth: set<string>) {
    && DistinctIds(g.defects)
    && Ids(g.defects) == truth
    && (g.itemPass <==> if truth != {} then AllFound(g.defects) else g.falseFindings == 0)
  }

  method ValidateGrade(data: Json, truth: set<string>) returns (grade: Option<Grade>)
    ensures grade.Some? <==> StatedGrade(data).Some? && Consistent(StatedGrade(data).value, truth)
    ensures grade.Some? ==> grade == StatedGrade(data)
  {
    if !data.JObject? || Get(data, "item_pass").None? || Get(data, "defects").None?
        || Get(data, "false_findings").None? {
      return None;
    }
    var defects := Get(data, "defects").value;
    if !defects.JArray? {
      return None;
    }
    var parsed: seq<Defect> := [];
    var allFound := true;
    for i := 0 to |defects.items|
      invariant forall j :: 0 <= j < i ==> WellFormedDefect(defects.items[j])
      invariant parsed == DefectsOf(defects.items[..i])
      invariant allFound == AllFound(parsed)
    {
      var d := defects.items[i];
      if !d.JObject? || AsText(Get(d, "id")).None? || AsBool(Get(d, "found")).None? {
        assert !WellFormedDefect(d);
        return None;
      }
      assert defects.items[..i + 1] == defects.items[..i] + [d];
      ghost var before := parsed;
      parsed := parsed + [DefectOf(d)];
      assert parsed == DefectsOf(defects.items[..i + 1]);
      assert parsed[i] == DefectOf(d) && forall j :: 0 <= j < i ==> parsed[j] == before[j];
      allFound := allFound && DefectOf(d).found;
    }
    assert defects.items[..|defects.items|] == defects.items;
    if !DistinctIds(parsed) || !(truth <= Ids(parsed)) || !(Ids(parsed) <= truth) {
      return None;
    }
    var falseFindings := IntegerOr(Get(data, "false_findings"), None);
    var neutral := IntegerOr(Get(data, "neutral_matched"), Some(0));
    var itemPass := AsBool(Get(data, "item_pass"));
    if falseFindings.None? || neutral.None? || itemPass.None? {
      return None;
    }
    var expected := if truth != {} then allFound else falseFindings.value == 0;
    if itemPass.value != expected {
      return None;
    }
    grade := Some(Grade(itemPass.value, parsed, falseFindings.value, neutral.value));
  }

  /** One entry of an answer says this of a defect. */
  ghost predicate SaysOfDefect(item: Json, d: Defect) {
    && item.JObject? && "id" in item.fields && item.fields["id"] == JString(d.id)
    && "found" in item.fields && item.fields["found"] == JBool(d.found)
  }

  /** An answer says a grade: its verdict, its defects in order and its two counts, the second of which is optional. */
  ghost predicate Says(data: Json, g: Grade) {
    && data.JObject?
    && "item_pass" in data.fields && data.fields["item_pass"] == JBool(g.itemPass)
    && "false_findings" in data.fields && data.fields["false_findings"] == JInteger(g.falseFindings)
    && (if "neutral_matched" in data.fields then data.fields["neutral_matched"] == JInteger(g.neutralMatched)
        else g.neutralMatched == 0)
    && "defects" in data.fields && data.fields["defects"].JArray?
    && var items := data.fields["defects"].items;
       |items| == |g.defects| && forall i :: 0 <= i < |items| ==> SaysOfDefect(items[i], g.defects[i])
  }

  lemma DefectSays(item: Json, d: Defect)
    ensures WellFormedDefect(item) && DefectOf(item) == d <==> SaysOfDefect(item, d)
  {
  }

  lemma DefectsSay(items: seq<Json>, defects: seq<Defect>)
    ensures (forall i :: 0 <= i < |items| ==> WellFormedDefect(items[i])) && DefectsOf(items) == defects <==>
              |items| == |defects| && forall i :: 0 <= i < |items| ==> SaysOfDefect(items[i], defects[i])
  {
    hide WellFormedDefect;
    hide SaysOfDefect;
    hide DefectOf;
    forall item, d ensures WellFormedDefect(item) && DefectOf(item) == d <==> SaysOfDefect(item, d) {
      DefectSays(item, d);
    }
    if (forall i :: 0 <= i < |items| ==> WellFormedDefect(items[i])) && DefectsOf(items) == defects {
      assert forall i :: 0 <= i < |items| ==> DefectOf(items[i]) == defects[i];
    }
  }

  /** The grade read from an answer is exactly the one it says. */
  lemma GradeExactly(data: Json, g: Grade)
    ensures StatedGrade(data) == Some(g) <==> Says(data, g)
  {
    if data.JObject? && "defects" in data.fields && data.fields["defects"].JArray? {
      DefectsSay(data.fields["defects"].items, g.defects);
    }
    hide SaysOfDefect;
    hide WellFormedDefect;
    hide DefectsOf;
  }

  // ---- Finding the object in the judge's text ----

  ghost predicate OpensAndCloses(text: string, i: int, j: int) {
    0 <= i < j < |text| && text[i] == '{' && text[j] == '}'
  }

  /** The widest span from a brace to a closing brace after it. */
  method ObjectSpan(text: string) returns (span: Option<(nat, nat)>)
    ensures span.None? ==> forall i, j :: !OpensAndCloses(text, i, j)
    ensures span.Some? ==> OpensAndCloses(text, span.value.0, span.value.1)
    ensures span.Some? ==> forall i, j :: OpensAndCloses(text, i, j) ==> span.value.0 <= i && j <= span.value.1
  {
    var open := 0;
    while open < |text| && text[open] != '{'
      invariant open <= |text| && forall i :: 0 <= i < open ==> text[i] != '{'
    {
      open := open + 1;
    }
    var close := |text|;
    while close > open && text[close - 1] != '}'
      invariant open <= close <= |text| && forall j :: close <= j < |text| ==> text[j] != '}'
    {
      close := close - 1;
    }
    span := if close > open then Some((open, close - 1)) else None;
  }

  /** The span is determined by what it is. */
  ghost predicate IsSpan(text: string, i: nat, j: nat) {
    OpensAndCloses(text, i, j) && forall k, l :: OpensAndCloses(text, k, l) ==> i <= k && l <= j
  }

  /**
   * The object that an answer holds: the whole of it if it reads as JSON, and otherwise what its widest braced
   * span reads as. `read` strips surrounding space and reads JSON.
   */
  ghost predicate Holds(text: string, read: string -> Option<Json>, data: Json) {
    || read(text) == Some(data)
    || (read(text).None? && exists i: nat, j: nat :: IsSpan(text, i, j) && read(text[i..j + 1]) == Some(data))
  }

  /** Accepts exactly the answers that hold an object stating a grade consistent with the ground truth. */
  method ParseAndValidate(text: string, read: string -> Option<Json>, truth: set<string>) returns (grade: Option<Grade>)
    ensures grade.Some? <==>
              exists data :: Holds(text, read, data) && StatedGrade(data).Some?
                  && Consistent(StatedGrade(data).value, truth)
    ensures grade.Some? ==> exists data :: Holds(text, read, data) && StatedGrade(data) == grade
  {
    hide StatedGrade;
    hide Consistent;
    var whole := read(text);
    if whole.Some? {
      assert Holds(text, read, whole.value);
      grade := ValidateGrade(whole.value, truth);
      return;
    }
    var span := ObjectSpan(text);
    if span.None? {
      return None;
    }
    var (i, j) := span.value;
    assert IsSpan(text, i, j);
    var part := read(text[i..j + 1]);
    if part.None? {
      OneSpan(text, i, j);
      return None;
    }
    assert Holds(text, read, part.value);
    OneSpan(text, i, j);
    grade := ValidateGrade(part.value, truth);
  }

  lemma OneSpan(text: string, i: nat, j: nat)
    requires IsSpan(text, i, j)
    ensures forall k: nat, l: nat :: IsSpan(text, k, l) ==> k == i && l == j
  {
  }
}
