/** What smoke evidence says, told from its JSON text: paths, words, fields, catalogs and contracts. */
module EvidenceMeaning {
  import opened Prelude
  import opened Json
  import opened SmokeEvidence

  // ---- Paths ----

  /** Following the field names leads to the value. */
  predicate Has(v: Json, path: seq<string>, value: Json)
    decreases |path|
  {
    if path == [] then v == value
    else v.JObject? && path[0] in v.fields && Has(v.fields[path[0]], path[1..], value)
  }

  lemma {:induction false} HasExactly(v: Json, path: seq<string>, value: Json)
    ensures Has(v, path, value) <==> At(v, path) == Some(value)
    decreases |path|
  {
    if path != [] && v.JObject? && path[0] in v.fields {
      HasExactly(v.fields[path[0]], path[1..], value);
    }
  }

  lemma TextExactly(v: Json, path: seq<string>, text: string)
    ensures TextAt(v, path) == Some(text) <==> Has(v, path, JString(text))
  {
    HasExactly(v, path, JString(text));
    hide At;
    hide Has;
  }

  lemma BoolExactly(v: Json, path: seq<string>, flag: bool)
    ensures BoolAt(v, path) == Some(flag) <==> Has(v, path, JBool(flag))
  {
    HasExactly(v, path, JBool(flag));
    hide At;
    hide Has;
  }

  lemma NumberExactly(v: Json, path: seq<string>, n: nat)
    ensures AsU64(At(v, path)) == Some(n) <==> Has(v, path, JInteger(n)) && n <= U64_MAX
  {
    HasExactly(v, path, JInteger(n));
    hide At;
    hide Has;
  }

  /** Nothing but null is at the end of the path. */
  ghost predicate NothingAt(v: Json, path: seq<string>) {
    forall value :: Has(v, path, value) ==> value == JNull
  }

  lemma NothingExactly(v: Json, path: seq<string>)
    ensures AbsentOrNull(At(v, path)) <==> NothingAt(v, path)
  {
    forall value ensures Has(v, path, value) <==> At(v, path) == Some(value) {
      HasExactly(v, path, value);
    }
    hide At;
    hide Has;
  }

  lemma FieldIsPath(v: Json, field: string)
    ensures Get(v, field) == At(v, [field])
  {
    assert [field][1..] == [];
  }

  // ---- Contracts ----

  /** One prompt was sent in time, answered exactly, and everything was put away without need of a cancel. */
  ghost predicate AnsweredCleanly(smoke: Json) {
    && Has(smoke, ["success"], JBool(true))
    && Has(smoke, ["attempt", "timed_out"], JBool(false))
    && Has(smoke, ["turn", "prompt_calls"], JInteger(1))
    && Has(smoke, ["turn", "terminal_state"], JString("completed"))
    && Has(smoke, ["turn", "exact_pong"], JBool(true))
    && NothingAt(smoke, ["diagnostics", "failure"])
    && Has(smoke, ["cleanup", "cancel"], JString("not_needed"))
    && Has(smoke, ["cleanup", "release"], JString("completed"))
    && Has(smoke, ["cleanup", "retire"], JString("completed"))
  }

  lemma SuccessContractExactly(smoke: Json)
    ensures FloatingSuccessContract(smoke) <==> AnsweredCleanly(smoke)
  {
    FieldIsPath(smoke, "success");
    BoolExactly(smoke, ["success"], true);
    BoolExactly(smoke, ["attempt", "timed_out"], false);
    NumberExactly(smoke, ["turn", "prompt_calls"], 1);
    TextExactly(smoke, ["turn", "terminal_state"], "completed");
    BoolExactly(smoke, ["turn", "exact_pong"], true);
    NothingExactly(smoke, ["diagnostics", "failure"]);
    TextExactly(smoke, ["cleanup", "cancel"], "not_needed");
    TextExactly(smoke, ["cleanup", "release"], "completed");
    TextExactly(smoke, ["cleanup", "retire"], "completed");
    hide At;
    hide Has;
    hide TextAt;
    hide NothingAt;
    hide AsU64;
  }

  /** One prompt was sent in time, the failure is of a kind the candidate answers for, and all was put away. */
  ghost predicate FailedCleanly(smoke: Json) {
    && Has(smoke, ["success"], JBool(false))
    && Has(smoke, ["attempt", "timed_out"], JBool(false))
    && Has(smoke, ["turn", "prompt_calls"], JInteger(1))
    && (exists kind :: kind in {"config", "model", "protocol"}
                       && Has(smoke, ["diagnostics", "failure", "class"], JString(kind)))
    && Has(smoke, ["diagnostics", "failure", "disposition"], JString("fatal"))
    && (exists flag :: Has(smoke, ["diagnostics", "failure", "prompt_may_have_been_accepted"], JBool(flag)))
    && (exists state :: state in {"not_needed", "completed"} && Has(smoke, ["cleanup", "cancel"], JString(state)))
    && Has(smoke, ["cleanup", "release"], JString("completed"))
    && Has(smoke, ["cleanup", "retire"], JString("completed"))
  }

  lemma FailureContractExactly(smoke: Json, model: string, effort: Option<string>, mode: Option<string>,
                               acceptable: string -> bool)
    ensures FloatingFailureContract(smoke, model, effort, mode, acceptable)
       <==> FailedCleanly(smoke) && ValidAvailableCatalog(smoke, model, effort, mode, acceptable)
  {
    hide At;
    hide Has;
    hide TextAt;
    hide AsU64;
    hide ValidAvailableCatalog;
    FieldIsPath(smoke, "success");
    BoolExactly(smoke, ["success"], false);
    BoolExactly(smoke, ["attempt", "timed_out"], false);
    NumberExactly(smoke, ["turn", "prompt_calls"], 1);
    hide Get;
    hide BoolAt;
    OneOfTexts(smoke, ["diagnostics", "failure", "class"], {"config", "model", "protocol"});
    TextExactly(smoke, ["diagnostics", "failure", "disposition"], "fatal");
    SomeFlag(smoke, ["diagnostics", "failure", "prompt_may_have_been_accepted"]);
    OneOfTexts(smoke, ["cleanup", "cancel"], {"not_needed", "completed"});
    TextExactly(smoke, ["cleanup", "release"], "completed");
    TextExactly(smoke, ["cleanup", "retire"], "completed");
  }

  lemma OneOfTexts(v: Json, path: seq<string>, texts: set<string>)
    ensures (TextAt(v, path).Some? && TextAt(v, path).value in texts) <==>
              exists text :: text in texts && Has(v, path, JString(text))
  {
    if TextAt(v, path).Some? {
      TextExactly(v, path, TextAt(v, path).value);
    }
    forall text ensures Has(v, path, JString(text)) <==> TextAt(v, path) == Some(text) {
      TextExactly(v, path, text);
    }
    hide TextAt;
    hide Has;
  }

  lemma SomeFlag(v: Json, path: seq<string>)
    ensures BoolAt(v, path).Some? <==> exists flag :: Has(v, path, JBool(flag))
  {
    forall flag ensures Has(v, path, JBool(flag)) <==> BoolAt(v, path) == Some(flag) {
      BoolExactly(v, path, flag);
    }
    hide BoolAt;
    hide Has;
    if BoolAt(v, path).Some? {
      assert Has(v, path, JBool(BoolAt(v, path).value));
    }
  }

  /** What the runner demands of an artifact before it looks at anything else. */
  ghost predicate WellShaped(smoke: Json, agent: string) {
    && Has(smoke, ["schema_version"], JInteger(2))
    && (exists flag :: Has(smoke, ["success"], JBool(flag)))
    && (exists id :: Has(smoke, ["attempt", "id"], JString(id)))
    && Has(smoke, ["request", "agent"], JString(agent))
    && Has(smoke, ["turn", "prompt"], JString("Reply exactly PONG. Do not use tools."))
    && (exists fields :: Has(smoke, ["diagnostics"], JObject(fields)))
    && (exists fields :: Has(smoke, ["cleanup"], JObject(fields)))
  }

  lemma ObjectExactly(v: Json, field: string)
    ensures (Get(v, field).Some? && Get(v, field).value.JObject?) <==>
              exists fields :: Has(v, [field], JObject(fields))
  {
    FieldIsPath(v, field);
    forall value ensures Has(v, [field], value) <==> At(v, [field]) == Some(value) {
      HasExactly(v, [field], value);
    }
    hide At;
    hide Has;
    hide Get;
    if Get(v, field).Some? && Get(v, field).value.JObject? {
      assert Get(v, field).value == JObject(Get(v, field).value.fields);
    }
  }

  lemma SomeText(v: Json, path: seq<string>)
    ensures TextAt(v, path).Some? <==> exists text :: Has(v, path, JString(text))
  {
    forall text ensures Has(v, path, JString(text)) <==> TextAt(v, path) == Some(text) {
      TextExactly(v, path, text);
    }
    hide TextAt;
    hide Has;
    if TextAt(v, path).Some? {
      assert Has(v, path, JString(TextAt(v, path).value));
    }
  }

  lemma ShapeExactly(smoke: Json, c: Case)
    ensures ValidSmokeShape(smoke, c) <==> WellShaped(smoke, c.agent)
  {
    FieldIsPath(smoke, "schema_version");
    FieldIsPath(smoke, "success");
    NumberExactly(smoke, ["schema_version"], 2);
    SomeFlag(smoke, ["success"]);
    SomeText(smoke, ["attempt", "id"]);
    TextExactly(smoke, ["request", "agent"], c.agent);
    TextExactly(smoke, ["turn", "prompt"], FIXED_PROMPT);
    ObjectExactly(smoke, "diagnostics");
    ObjectExactly(smoke, "cleanup");
    hide At;
    hide Has;
    hide TextAt;
    hide AsU64;
    hide Get;
  }

  // ---- Usage ----

  /** Tokens are what the terminal event reports, and only without that what the running count says. */
  lemma TokensExactly(smoke: Json)
    ensures forall n: nat :: n <= U64_MAX && Has(smoke, ["turn", "usage", "terminal", "totalTokens"], JInteger(n)) ==>
              ObservedTokens(smoke) == Some(n)
    ensures (forall n: nat :: n <= U64_MAX ==>
               !Has(smoke, ["turn", "usage", "terminal", "totalTokens"], JInteger(n))) ==>
              forall n: nat :: ObservedTokens(smoke) == Some(n) <==>
                Has(smoke, ["turn", "usage", "used"], JInteger(n)) && n <= U64_MAX
  {
    forall n: nat
      ensures AsU64(At(smoke, ["turn", "usage", "terminal", "totalTokens"])) == Some(n) <==>
                Has(smoke, ["turn", "usage", "terminal", "totalTokens"], JInteger(n)) && n <= U64_MAX
      ensures AsU64(At(smoke, ["turn", "usage", "used"])) == Some(n) <==>
                Has(smoke, ["turn", "usage", "used"], JInteger(n)) && n <= U64_MAX
    {
      NumberExactly(smoke, ["turn", "usage", "terminal", "totalTokens"], n);
      NumberExactly(smoke, ["turn", "usage", "used"], n);
    }
    hide At;
    hide Has;
    hide AsU64;
  }

  /** A cost is counted exactly if it was not rejected and is an amount of dollars that is not negative. */
  lemma CostExactly(smoke: Json, amount: int)
    ensures Has(smoke, ["turn", "usage", "cost", "amount"], JInteger(amount)) && amount >= 0
            && Has(smoke, ["turn", "usage", "cost", "currency"], JString("USD"))
            && NothingAt(smoke, ["turn", "usage", "cost_rejected"]) ==>
              ObservedCost(smoke) == Usd(amount as real)
    ensures !NothingAt(smoke, ["turn", "usage", "cost_rejected"]) ==> ObservedCost(smoke) == Invalid
    ensures ObservedCost(smoke) == Missing <==>
              NothingAt(smoke, ["turn", "usage", "cost_rejected"]) && NothingAt(smoke, ["turn", "usage", "cost"])
    ensures ObservedCost(smoke).Usd? ==> Has(smoke, ["turn", "usage", "cost", "currency"], JString("USD"))
    ensures Has(smoke, ["turn", "usage", "cost", "amount"], JInteger(amount)) && amount < 0 ==>
              ObservedCost(smoke) == Invalid
  {
    NothingExactly(smoke, ["turn", "usage", "cost_rejected"]);
    NothingExactly(smoke, ["turn", "usage", "cost"]);
    InsideCost(smoke, "amount", JInteger(amount));
    InsideCost(smoke, "currency", JString("USD"));
    hide At;
    hide Has;
    hide NothingAt;
  }

  lemma InsideCost(smoke: Json, field: string, value: Json)
    ensures Has(smoke, ["turn", "usage", "cost", field], value) <==>
              && At(smoke, ["turn", "usage", "cost"]).Some?
              && Get(At(smoke, ["turn", "usage", "cost"]).value, field) == Some(value)
  {
    var path := ["turn", "usage", "cost"];
    assert path + [field] == ["turn", "usage", "cost", field];
    HasExactly(smoke, path + [field], value);
    OneFieldMore(smoke, path, field);
    hide At;
    hide Has;
  }

  lemma {:induction false} OneFieldMore(v: Json, path: seq<string>, field: string)
    ensures At(v, path + [field]) == if At(v, path).Some? then Get(At(v, path).value, field) else None
    decreases |path|
  {
    if path == [] {
      assert path + [field] == [field] && [field][1..] == [];
    } else {
      assert (path + [field])[0] == path[0] && (path + [field])[1..] == path[1..] + [field];
      if Get(v, path[0]).Some? {
        OneFieldMore(Get(v, path[0]).value, path[1..], field);
      }
    }
  }

  // ---- Words and fields ----

  predicate IsWord(w: string) {
    w != "" && forall i :: 0 <= i < |w| ==> !AsciiSpace(w[i])
  }

  /** Words are never empty and never contain a space. */
  lemma {:induction false} WordsAreWords(text: string, word: string)
    requires word == "" || IsWord(word)
    ensures forall i :: 0 <= i < |Words(text, word)| ==> IsWord(Words(text, word)[i])
    decreases |text|
  {
    if text != "" {
      WordsAreWords(text[1..], if AsciiSpace(text[0]) then "" else word + [text[0]]);
    }
  }

  /** A word in progress takes in everything up to the next space. */
  lemma {:induction false} WordGoesOn(w: string, word: string, rest: string)
    requires forall i :: 0 <= i < |w| ==> !AsciiSpace(w[i])
    ensures Words(w + rest, word) == Words(rest, word + w)
    decreases |w|
  {
    if w == "" {
      assert w + rest == rest && word + w == word;
    } else {
      assert (w + rest)[0] == w[0] && (w + rest)[1..] == w[1..] + rest;
      WordGoesOn(w[1..], word + [w[0]], rest);
      assert word + [w[0]] + w[1..] == word + w;
    }
  }

  /** A space ends a word and begins nothing; the end of the text ends the last one. */
  lemma WordsExactly(w: string, space: char, rest: string)
    requires IsWord(w) && AsciiSpace(space)
    ensures Words("", "") == []
    ensures Words(w, "") == [w]
    ensures Words([space] + rest, "") == Words(rest, "")
    ensures Words(w + [space] + rest, "") == [w] + Words(rest, "")
  {
    assert w + "" == w && "" + w == w;
    WordGoesOn(w, "", "");
    WordGoesOn(w, "", [space] + rest);
    assert w + [space] + rest == w + ([space] + rest);
    assert ([space] + rest)[1..] == rest;
  }

  /** A part of the text states the field. */
  predicate States(part: string, field: string, value: string) {
    value != "" && part == field + "=" + value
  }

  lemma FieldExactly(part: string, field: string, value: string)
    requires '=' !in field
    ensures FieldValue(part, field) == Some(value) <==> States(part, field, value)
  {
    if States(part, field, value) {
      assert part[..|field|] == field && part[|field|] == '=' && part[|field| + 1..] == value;
    }
  }

  ghost predicate StatesSome(part: string, field: string) {
    exists value :: States(part, field, value)
  }

  lemma {:induction false} FieldValuesAre(parts: seq<string>, field: string)
    requires '=' !in field
    ensures FieldValues(parts, field) == [] <==> forall i :: 0 <= i < |parts| ==> !StatesSome(parts[i], field)
    decreases |parts|
  {
    if parts != [] {
      FieldValuesAre(parts[1..], field);
      StatesSomeExactly(parts[0], field);
      hide FieldValue;
      hide StatesSome;
      assert forall i :: 1 <= i < |parts| ==> parts[i] == parts[1..][i - 1];
    }
  }

  lemma StatesSomeExactly(part: string, field: string)
    requires '=' !in field
    ensures FieldValue(part, field).Some? <==> StatesSome(part, field)
  {
    if FieldValue(part, field).Some? {
      FieldExactly(part, field, FieldValue(part, field).value);
    }
    forall value ensures FieldValue(part, field) == Some(value) <==> States(part, field, value) {
      FieldExactly(part, field, value);
    }
  }

  /** Exactly one part states the field, and with this value. */
  ghost predicate StatedOnce(parts: seq<string>, field: string, value: string) {
    exists i :: 0 <= i < |parts| && States(parts[i], field, value)
                && forall j :: 0 <= j < |parts| && j != i ==> !StatesSome(parts[j], field)
  }

  lemma {:induction false} StatedOnceExactly(parts: seq<string>, field: string, value: string)
    requires '=' !in field
    ensures FieldValues(parts, field) == [value] <==> StatedOnce(parts, field, value)
    decreases |parts|
  {
    if parts != [] {
      var rest := parts[1..];
      assert forall i :: 1 <= i < |parts| ==> parts[i] == rest[i - 1];
      assert forall i :: 0 <= i < |rest| ==> rest[i] == parts[i + 1];
      StatedOnceExactly(rest, field, value);
      FieldValuesAre(rest, field);
      StatesSomeExactly(parts[0], field);
      FieldExactly(parts[0], field, value);
      FirstOrLater(parts, field, value);
      hide FieldValue;
      hide StatesSome;
      hide States;
      hide StatedOnce;
    }
  }

  lemma FirstOrLater(parts: seq<string>, field: string, value: string)
    requires parts != []
    ensures StatedOnce(parts, field, value) <==>
              || (States(parts[0], field, value)
                  && forall i :: 0 <= i < |parts[1..]| ==> !StatesSome(parts[1..][i], field))
              || (!StatesSome(parts[0], field) && StatedOnce(parts[1..], field, value))
  {
    var rest := parts[1..];
    assert forall i :: 1 <= i < |parts| ==> parts[i] == rest[i - 1];
    if States(parts[0], field, value) && forall i :: 0 <= i < |rest| ==> !StatesSome(rest[i], field) {
      assert StatedOnce(parts, field, value);
    }
    if !StatesSome(parts[0], field) && StatedOnce(rest, field, value) {
      var i :| 0 <= i < |rest| && States(rest[i], field, value)
                && forall j :: 0 <= j < |rest| && j != i ==> !StatesSome(rest[j], field);
      assert States(parts[i + 1], field, value);
      assert forall j :: 0 <= j < |parts| && j != i + 1 ==> !StatesSome(parts[j], field);
    }
    if i :| 0 <= i < |parts| && States(parts[i], field, value)
            && forall j :: 0 <= j < |parts| && j != i ==> !StatesSome(parts[j], field)
    {
      assert forall j :: 0 <= j < |rest| ==> rest[j] == parts[j + 1];
      if i > 0 {
        assert States(rest[i - 1], field, value);
        assert StatedOnce(rest, field, value);
      }
    }
  }

  /** A detail has a value for a field exactly if one word of it, and no other, states the field. */
  lemma DetailFieldExactly(detail: string, field: string, value: string)
    requires '=' !in field
    ensures UniqueDetailField(detail, field) == Some(value) <==> StatedOnce(Words(detail, ""), field, value)
  {
    StatedOnceExactly(Words(detail, ""), field, value);
    hide Words;
    hide FieldValues;
    hide StatedOnce;
  }

  // ---- Provenance ----

  predicate IsRow(row: Json, check: string) {
    Has(row, ["check"], JString(check))
  }

  lemma RowExactly(row: Json, check: string)
    ensures AsText(Get(row, "check")) == Some(check) <==> IsRow(row, check)
  {
    FieldIsPath(row, "check");
    TextExactly(row, ["check"], check);
    hide At;
    hide Has;
    hide Get;
  }

  lemma {:induction false} RowsAre(rows: seq<Json>, check: string)
    ensures RowsWithCheck(rows, check) == [] <==> forall i :: 0 <= i < |rows| ==> !IsRow(rows[i], check)
    decreases |rows|
  {
    if rows != [] {
      RowsAre(rows[1..], check);
      RowExactly(rows[0], check);
      hide IsRow;
      assert forall i :: 1 <= i < |rows| ==> rows[i] == rows[1..][i - 1];
    }
  }

  ghost predicate OnlyRow(rows: seq<Json>, check: string, i: nat) {
    i < |rows| && IsRow(rows[i], check) && forall j :: 0 <= j < |rows| && j != i ==> !IsRow(rows[j], check)
  }

  lemma {:induction false} OnlyRowExactly(rows: seq<Json>, check: string, i: nat)
    requires OnlyRow(rows, check, i)
    ensures RowsWithCheck(rows, check) == [rows[i]]
    decreases |rows|
  {
    RowExactly(rows[0], check);
    hide IsRow;
    assert forall j :: 1 <= j < |rows| ==> rows[j] == rows[1..][j - 1];
    if i == 0 {
      RowsAre(rows[1..], check);
    } else {
      OnlyRowExactly(rows[1..], check, i - 1);
    }
  }

  lemma {:induction false} OneRowMeansOnly(rows: seq<Json>, check: string) returns (i: nat)
    requires |RowsWithCheck(rows, check)| == 1
    ensures OnlyRow(rows, check, i)
    decreases |rows|
  {
    RowExactly(rows[0], check);
    hide IsRow;
    assert forall j :: 1 <= j < |rows| ==> rows[j] == rows[1..][j - 1];
    if IsRow(rows[0], check) {
      RowsAre(rows[1..], check);
      i := 0;
    } else {
      i := OneRowMeansOnly(rows[1..], check);
      i := i + 1;
    }
  }

  /**
   * A component has a provenance detail exactly if one row of the evidence, and no other, is its check, and that
   * row is in order and states the detail.
   */
  lemma ProvenanceExactly(smoke: Json, agent: string, component: string, detail: string)
    ensures ProvenanceDetail(smoke, agent, component) == Some(detail) <==>
              exists rows, i ::
                && Has(smoke, ["target", "provenance"], JArray(rows))
                && OnlyRow(rows, "provenance:" + agent + ":" + component, i)
                && Has(rows[i], ["status"], JString("ok")) && Has(rows[i], ["detail"], JString(detail))
  {
    var found, check := At(smoke, ["target", "provenance"]), "provenance:" + agent + ":" + component;
    forall value ensures Has(smoke, ["target", "provenance"], value) <==> found == Some(value) {
      HasExactly(smoke, ["target", "provenance"], value);
    }
    if found.Some? && found.value.JArray? {
      var rows := found.value.items;
      assert found.value == JArray(rows);
      if |RowsWithCheck(rows, check)| == 1 {
        var i := OneRowMeansOnly(rows, check);
        OnlyRowExactly(rows, check, i);
        RowStates(rows[i], detail);
        OnlyOne(rows, check, i);
      } else {
        forall i | OnlyRow(rows, check, i) ensures false {
          OnlyRowExactly(rows, check, i);
        }
      }
    }
    hide At;
    hide Has;
    hide OnlyRow;
  }

  lemma OnlyOne(rows: seq<Json>, check: string, i: nat)
    requires OnlyRow(rows, check, i)
    ensures forall j :: OnlyRow(rows, check, j) ==> j == i
  {
  }

  lemma RowStates(row: Json, detail: string)
    ensures AsText(Get(row, "status")) == Some("ok") <==> Has(row, ["status"], JString("ok"))
    ensures AsText(Get(row, "detail")) == Some(detail) <==> Has(row, ["detail"], JString(detail))
  {
    FieldIsPath(row, "status");
    FieldIsPath(row, "detail");
    TextExactly(row, ["status"], "ok");
    TextExactly(row, ["detail"], detail);
    hide At;
    hide Has;
    hide Get;
  }

  // ---- Model ids ----

  /** A text splits at the last occurrence of a character, if it has one. */
  lemma {:induction false} SplitLastExactly(s: string, c: char)
    ensures SplitLast(s, c).None? <==> c !in s
    ensures SplitLast(s, c).Some? ==>
              var (before, after) := SplitLast(s, c).value; s == before + [c] + after && c !in after
  {
    if s != "" {
      var n := |s| - 1;
      assert s == s[..n] + [s[n]];
      SplitLastExactly(s[..n], c);
    }
  }

  lemma {:induction false} SplitsAt(before: string, c: char, after: string)
    requires c !in after
    ensures SplitLast(before + [c] + after, c) == Some((before, after))
    decreases |after|
  {
    var s := before + [c] + after;
    if after == "" {
      assert s[..|s| - 1] == before;
    } else {
      var n := |after| - 1;
      assert s[..|s| - 1] == before + [c] + after[..n] && s[|s| - 1] == after[n];
      SplitsAt(before, c, after[..n]);
      assert after[..n] + [after[n]] == after;
    }
  }

  lemma LevelsArePlain(level: string)
    requires level in EFFORT_LEVELS
    ensures level != "" && '[' !in level && ']' !in level && '/' !in level && level[|level| - 1] != ']'
  {
    assert level == "low" || level == "medium" || level == "high" || level == "xhigh" || level == "max";
  }

  /** An id in either notation is read back as the base and the level it was made of. */
  lemma ModelIdRoundTrip(base: string, level: string)
    requires level in EFFORT_LEVELS
    ensures ModelIdParts(base + "[" + level + "]") == Some((base, level))
    ensures ModelIdParts(base + "/" + level) == Some((base, level))
  {
    LevelsArePlain(level);
    var bracketed, slashed := base + "[" + level + "]", base + "/" + level;
    assert bracketed[..|bracketed| - 1] == base + ['['] + level;
    SplitsAt(base, '[', level);
    assert slashed == base + ['/'] + level;
    assert slashed[|slashed| - 1] == level[|level| - 1];
    SplitsAt(base, '/', level);
  }

  /** Whatever is read from an id was in it, in one of the two notations. */
  lemma ModelIdMeans(id: string)
    ensures ModelIdParts(id).Some? ==>
              var (base, level) := ModelIdParts(id).value;
              level in EFFORT_LEVELS && (id == base + "[" + level + "]" || id == base + "/" + level)
  {
    if id != "" {
      SplitLastExactly(id[..|id| - 1], '[');
      assert id == id[..|id| - 1] + [id[|id| - 1]];
    }
    SplitLastExactly(id, '/');
    hide SplitLast;
  }

  // ---- Catalogs ----

  function Length(values: seq<string>): nat {
    if values == [] then 0 else |values[0]| + Length(values[1..])
  }

  /** The values of a catalog fit exactly when each is acceptable and of bounded size, and all of them together are. */
  lemma {:induction false} CatalogFitsExactly(values: seq<string>, total: nat, acceptable: string -> bool)
    requires total <= 65_536
    ensures CatalogValuesFit(values, total, acceptable) <==>
              && (forall i :: 0 <= i < |values| ==> 0 < |values[i]| <= 256 && acceptable(values[i]))
              && total + Length(values) <= 65_536
    decreases |values|
  {
    if values != [] {
      var rest := values[1..];
      assert forall i :: 1 <= i < |values| ==> values[i] == rest[i - 1];
      assert forall i :: 0 <= i < |rest| ==> rest[i] == values[i + 1];
      if total + |values[0]| <= 65_536 {
        CatalogFitsExactly(rest, total + |values[0]|, acceptable);
      }
    }
  }

  lemma CatalogStringsExactly(catalog: Json, field: string, texts: seq<string>)
    ensures CatalogStrings(catalog, field) == Some(texts) <==>
              exists items ::
                && Has(catalog, [field], JArray(items)) && |items| == |texts|
                && forall i :: 0 <= i < |items| ==> items[i] == JString(texts[i])
  {
    FieldIsPath(catalog, field);
    var found := At(catalog, [field]);
    forall value ensures Has(catalog, [field], value) <==> found == Some(value) {
      HasExactly(catalog, [field], value);
    }
    hide At;
    hide Has;
    hide Get;
    if found.Some? && found.value.JArray? {
      var items := found.value.items;
      assert found.value == JArray(items);
      if |items| == |texts| && forall i :: 0 <= i < |items| ==> items[i] == JString(texts[i]) {
        assert CatalogStrings(catalog, field).value == texts;
      } else if CatalogStrings(catalog, field).Some? {
        assert CatalogStrings(catalog, field).value != texts;
      }
    }
  }

  /** The catalog a request may rely on: it lists what was asked for and runs it now. */
  ghost predicate Offers(catalog: Json, model: string, effort: Option<string>, mode: Option<string>,
                         models: seq<string>, efforts: seq<string>, modes: seq<string>)
  {
    && Has(catalog, ["state"], JString("available"))
    && (exists current ::
          && Has(catalog, ["current_model"], JString(current)) && current in models
          && (current == model || (effort.Some? && ModelIdParts(current) == Some((model, effort.value))))
          && (effort.Some? ==>
                || effort.value in efforts
                || (ModelIdParts(current).Some? && ModelIdParts(current).value.1 == effort.value)))
    && (mode.Some? ==> mode.value in modes && Has(catalog, ["current_mode"], JString(mode.value)))
    && (forall text :: Has(catalog, ["current_mode"], JString(text)) ==> text in modes)
    && |models| + |efforts| + |modes| <= 128
  }

  lemma CatalogIsOffered(catalog: Json, model: string, effort: Option<string>, mode: Option<string>,
                         models: seq<string>, efforts: seq<string>, modes: seq<string>)
    requires AsText(Get(catalog, "state")) == Some("available") && |models| + |efforts| + |modes| <= 128
    requires var current := AsText(Get(catalog, "current_model"));
             && CurrentModelMatches(current, model, effort) && EffortMatches(efforts, current, effort)
             && (current.Some? ==> current.value in models)
    requires var currentMode := AsText(Get(catalog, "current_mode"));
             && (currentMode.Some? ==> currentMode.value in modes)
             && (mode.Some? ==> mode.value in modes && currentMode == mode)
    ensures Offers(catalog, model, effort, mode, models, efforts, modes)
  {
    FieldIsPath(catalog, "state");
    FieldIsPath(catalog, "current_model");
    FieldIsPath(catalog, "current_mode");
    TextExactly(catalog, ["state"], "available");
    var current := AsText(Get(catalog, "current_model")).value;
    TextExactly(catalog, ["current_model"], current);
    forall text ensures TextAt(catalog, ["current_mode"]) == Some(text) <==>
                          Has(catalog, ["current_mode"], JString(text)) {
      TextExactly(catalog, ["current_mode"], text);
    }
    hide At;
    hide Has;
    hide Get;
    hide ModelIdParts;
  }

  lemma CatalogParts(smoke: Json, model: string, effort: Option<string>, mode: Option<string>,
                     acceptable: string -> bool)
                     returns (catalog: Json, models: seq<string>, efforts: seq<string>, modes: seq<string>)
    requires ValidAvailableCatalog(smoke, model, effort, mode, acceptable)
    ensures Has(smoke, ["target", "model_catalog"], catalog) && catalog.JObject?
    ensures CatalogStrings(catalog, "models") == Some(models)
    ensures CatalogStrings(catalog, "effort_levels") == Some(efforts)
    ensures CatalogStrings(catalog, "modes") == Some(modes)
    ensures AsText(Get(catalog, "state")) == Some("available") && |models| + |efforts| + |modes| <= 128
    ensures var current := AsText(Get(catalog, "current_model"));
            && CurrentModelMatches(current, model, effort) && EffortMatches(efforts, current, effort)
            && (current.Some? ==> current.value in models)
    ensures var currentMode := AsText(Get(catalog, "current_mode"));
            && (currentMode.Some? ==> currentMode.value in modes)
            && (mode.Some? ==> mode.value in modes && currentMode == mode)
    ensures forall text :: text in models || text in efforts || text in modes ==> 0 < |text| <= 256 && acceptable(text)
  {
    hide CatalogStrings;
    hide CatalogValuesFit;
    hide CurrentModelMatches;
    hide EffortMatches;
    hide Get;
    hide Has;
    catalog := At(smoke, ["target", "model_catalog"]).value;
    HasExactly(smoke, ["target", "model_catalog"], catalog);
    hide At;
    models, efforts := CatalogStrings(catalog, "models").value, CatalogStrings(catalog, "effort_levels").value;
    modes := CatalogStrings(catalog, "modes").value;
    var current, currentMode := AsText(Get(catalog, "current_model")), AsText(Get(catalog, "current_mode"));
    PartsFit(Listed(current), models, efforts, modes, Listed(currentMode), acceptable);
  }

  lemma PartsFit(first: seq<string>, models: seq<string>, efforts: seq<string>, modes: seq<string>, last: seq<string>,
                 acceptable: string -> bool)
    requires CatalogValuesFit(first + models + efforts + modes + last, 0, acceptable)
    ensures forall text :: text in models || text in efforts || text in modes ==> 0 < |text| <= 256 && acceptable(text)
  {
    var values := first + models + efforts + modes + last;
    CatalogFitsExactly(values, 0, acceptable);
    forall text | text in models || text in efforts || text in modes ensures 0 < |text| <= 256 && acceptable(text) {
      assert text in values;
    }
  }

  /** What a valid catalog offers to the request it is valid for. */
  lemma CatalogOffers(smoke: Json, model: string, effort: Option<string>, mode: Option<string>,
                      acceptable: string -> bool)
                      returns (catalog: Json, models: seq<string>, efforts: seq<string>, modes: seq<string>)
    requires ValidAvailableCatalog(smoke, model, effort, mode, acceptable)
    ensures Has(smoke, ["target", "model_catalog"], catalog) && catalog.JObject?
    ensures CatalogStrings(catalog, "models") == Some(models)
    ensures CatalogStrings(catalog, "effort_levels") == Some(efforts)
    ensures CatalogStrings(catalog, "modes") == Some(modes)
    ensures Offers(catalog, model, effort, mode, models, efforts, modes)
    ensures forall text :: text in models || text in efforts || text in modes ==> 0 < |text| <= 256 && acceptable(text)
  {
    hide *;
    catalog, models, efforts, modes := CatalogParts(smoke, model, effort, mode, acceptable);
    CatalogIsOffered(catalog, model, effort, mode, models, efforts, modes);
  }
}
