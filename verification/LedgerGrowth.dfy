/** What enters a ledger, reservations and legacy imports, and what it adds to the sums that the budgets measure. */
module LedgerGrowth {
  import opened Prelude
  import opened Budget
  import opened LedgerRecords
  import opened LedgerSpec
  import opened LedgerRuns
  import opened LedgerUsage
  import opened LedgerSettlement
  import opened LedgerScenarios

  // ---- Which imports are in order ----

  const LETTERS := "abcdefghijklmnopqrstuvwxyz"
  const DIGITS := "0123456789"
  const SEPARATORS := "-_."

  lemma LettersExactly(c: char)
    ensures c in LETTERS <==> 'a' <= c <= 'z'
  {
    if 'a' <= c <= 'z' {
      assert LETTERS[c as int - 'a' as int] == c;
    }
  }

  lemma DigitsExactly(c: char)
    ensures c in DIGITS <==> '0' <= c <= '9'
  {
    if '0' <= c <= '9' {
      assert DIGITS[c as int - '0' as int] == c;
    }
  }

  /** Stable ids are bounded words over one alphabet; none of them can leave a directory or hide in it. */
  lemma StableIdExactly(value: string)
    ensures StableId(value) <==>
              && 1 <= |value| <= 128 && value[0] !in SEPARATORS
              && forall c :: c in value ==> c in LETTERS || c in DIGITS || c in SEPARATORS
    ensures StableId(value) ==> '/' !in value && value != "." && value != ".."
  {
    forall c ensures LowerOrDigit(c) <==> c in LETTERS || c in DIGITS {
      LettersExactly(c);
      DigitsExactly(c);
    }
    assert SEPARATORS == ['-', '_', '.'];
    if StableId(value) {
      forall i | 0 <= i < |value| ensures value[i] != '/' {}
    }
  }

  ghost predicate Importable(v: LegacyImport) {
    && 1 <= v.chargedUsage.attempts <= 10_000 && v.chargedUsage.tokens <= 1_000_000_000
    && v.chargedUsage.costMicrousd <= 10_000_000_000 && v.chargedUsage.timeSecs <= 2_678_400
    && 0 < v.observedAtMs
    && (|| v.rollingExpiresAtMs == v.observedAtMs + 86_400_000 <= I64_MAX
        || v.rollingExpiresAtMs == I64_MAX < v.observedAtMs + 86_400_000)
    && StableId(v.caseId) && StableId(v.providerFamily) && Identifies(v.importId, v)
  }

  /** The identity of an import is what it imports, from where and when. */
  ghost predicate Identifies(id: ImportId, v: LegacyImport) {
    && id.inventorySha256 == v.inventorySha256 && id.aggregateSha256 == v.aggregateSha256 && id.kind == v.kind
    && id.caseId == v.caseId && id.providerFamily == v.providerFamily && id.trigger == v.trigger
    && id.accountingClass == v.accountingClass && id.chargedUsage == v.chargedUsage
    && id.observedAtMs == v.observedAtMs
  }

  lemma ImportableExactly(v: LegacyImport)
    ensures ValidLegacyImport(v) <==> Importable(v)
  {
    hide StableId;
  }

  lemma ImportsAreIdentified(v: LegacyImport, w: LegacyImport)
    requires Importable(v) && Importable(w) && v.importId == w.importId
    ensures v == w
  {
    hide StableId;
  }

  // ---- The answer ----

  /**
   * The answer to an import into a well-formed ledger: invalid exactly if it is not in order, and otherwise known or
   * new. An import known by its id is the same import, so that none can be bound to another; a new one is held
   * exactly if the directory took it. Reservations are never touched.
   */
  lemma ImportsAreAnswered(s: LedgerState, v: LegacyImport, disk: Disk)
    requires WellFormed(s)
    ensures var (s', outcome) := Imported(s, v, disk);
            && s'.reservations == s.reservations
            && (outcome == Err(InvalidImport) <==> !Importable(v))
            && (outcome.Err? ==> s'.imports == s.imports && outcome.error in {InvalidImport, NotPersisted})
            && (outcome.Ok? ==> s'.imports == s.imports[v.importId := v])
            && (Importable(v) && v.importId in s.imports ==>
                  s.imports[v.importId] == v && s' == s && outcome == Ok(ExistingIdentical))
  {
    ImportableExactly(v);
    AppendFailsToPersist(s.directory, LegacyFile(v.importId), LegacyRecord(v), disk);
    if Importable(v) && v.importId in s.imports {
      var known := s.imports[v.importId];
      assert SoundImport(v.importId, known);
      ImportableExactly(known);
      ImportsAreIdentified(v, known);
      assert s.imports[v.importId := v] == s.imports;
    }
    hide Append;
    hide Importable;
    hide ValidLegacyImport;
    hide WellFormed;
  }

  // ---- What it adds ----

  lemma AddedOfNew<K>(amounts: map<K, Amounts>, k: K, amount: Amounts)
    requires k !in amounts
    ensures Added(amounts[k := amount]) == Plus(amount, Added(amounts))
  {
    AddedSplits(amounts[k := amount], k);
    assert amounts[k := amount] - {k} == amounts;
    hide Added;
  }

  lemma ChargesAfterImporting(s: LedgerState, v: LegacyImport, s': LedgerState, mine: Reservation -> bool,
                              imported: LegacyImport -> bool)
    requires s'.reservations == s.reservations && s'.imports == s.imports[v.importId := v]
    requires v.importId !in s.imports
    ensures Charges(s', mine) == Charges(s, mine) && v.importId !in ImportedCharges(s, imported)
    ensures ImportedCharges(s', imported)
         == if imported(v) then ImportedCharges(s, imported)[v.importId := v.chargedUsage]
            else ImportedCharges(s, imported)
  {
    hide Charge;
  }

  lemma AddLeft(a: Amounts, b: Amounts, c: Amounts)
    ensures Plus(a, Plus(b, c)) == Plus(Plus(a, c), b)
  {
  }

  /** An accepted import adds its charge to every sum it belongs to, once however often it is made, and to no other. */
  lemma ImportAdds(s: LedgerState, v: LegacyImport, disk: Disk, mine: Reservation -> bool,
                   imported: LegacyImport -> bool)
    requires WellFormed(s) && Imported(s, v, disk).1.Ok?
    ensures var s' := Imported(s, v, disk).0;
            Used(s', mine, imported)
            == if v.importId !in s.imports && imported(v) then Plus(Used(s, mine, imported), v.chargedUsage)
               else Used(s, mine, imported)
  {
    ImportsAreAnswered(s, v, disk);
    var s' := Imported(s, v, disk).0;
    hide WellFormed;
    hide Imported;
    hide Importable;
    hide Charges;
    hide ImportedCharges;
    hide Added;
    hide Plus;
    if v.importId !in s.imports {
      ChargesAfterImporting(s, v, s', mine, imported);
      if imported(v) {
        AddedOfNew(ImportedCharges(s, imported), v.importId, v.chargedUsage);
        AddLeft(Added(Charges(s, mine)), v.chargedUsage, Added(ImportedCharges(s, imported)));
      }
    }
  }

  // ---- Reservations ----

  /** The directory took the record: it was written and synced, or was there already. */
  predicate Takes(dir: Directory, name: FileName, record: FileRecord, disk: Disk) {
    if name in dir then dir[name] == Canonical(record) else disk == Persists
  }

  /**
   * The answer to a request of a well-formed ledger: refused for the reason that admission gives, or what is recorded
   * of it already, or a new record that says what the request says and is held exactly if the directory took it.
   */
  lemma GrantsAreHeld(s: LedgerState, request: Request, atMs: int, disk: Disk)
    requires WellFormed(s)
    ensures var (s', outcome) := Reserved(s, request, atMs, disk);
            var refusal := Headroom(s, request, atMs);
            && (refusal.Some? ==> s' == s && outcome == Err(refusal.value))
            && (refusal.None? ==>
                  && RequestRecord(request, atMs).Some?
                  && var record := RequestRecord(request, atMs).value;
                     var id := record.reservationId;
                     if id in s.reservations then
                       s' == s && outcome == Ok((ExistingIdentical, s.reservations[id].record))
                     else if Takes(s.directory, ReservationFile(id), ReservationRecord(record), disk) then
                       && outcome.Ok? && outcome.value.1 == record && s'.imports == s.imports
                       && s'.reservations == s.reservations[id := Stored(record, None)]
                     else
                       outcome == Err(NotPersisted) && s'.imports == s.imports && s'.reservations == s.reservations)
  {
    HeadroomNeedsRecord(s, request, atMs);
    RefusedStays(s, request, atMs, disk);
    if Headroom(s, request, atMs).None? {
      var record := RequestRecord(request, atMs).value;
      ProposalIsValid(request, atMs);
      if record.reservationId in s.reservations {
        KnownIsAnswered(s, request, atMs, disk);
      } else {
        KeyIsNew(s, record);
        ReservesProposal(s, request, atMs, disk);
        NewIsHeld(s, record, disk);
      }
    }
    hide *;
  }

  lemma HeadroomNeedsRecord(s: LedgerState, request: Request, atMs: int)
    ensures Headroom(s, request, atMs).None? ==> RequestRecord(request, atMs).Some?
  {
    hide RequestRecord;
    hide FirstFailure;
    hide ClockRolledBack;
  }

  lemma RefusedStays(s: LedgerState, request: Request, atMs: int, disk: Disk)
    ensures Headroom(s, request, atMs).Some? ==>
              Reserved(s, request, atMs, disk) == (s, Err(Headroom(s, request, atMs).value))
  {
    hide Headroom;
    hide RequestRecord;
    hide Committed;
  }

  lemma KnownIsAnswered(s: LedgerState, request: Request, atMs: int, disk: Disk)
    requires WellFormed(s) && Headroom(s, request, atMs).None? && RequestRecord(request, atMs).Some?
    requires RequestRecord(request, atMs).value.reservationId in s.reservations
    ensures var id := RequestRecord(request, atMs).value.reservationId;
            Reserved(s, request, atMs, disk) == (s, Ok((ExistingIdentical, s.reservations[id].record)))
  {
    var id := RequestRecord(request, atMs).value.reservationId;
    assert SoundReservation(id, s.reservations[id]);
    hide Headroom;
    hide RequestRecord;
    hide ValidReservation;
    hide ValidReconciliation;
    hide WellFormed;
  }

  lemma NewIsHeld(s: LedgerState, record: Reservation, disk: Disk)
    requires ValidReservation(record) && record.reservationId !in s.reservations
    requires !exists id :: id in s.reservations && s.reservations[id].record.attemptKey == record.attemptKey
    ensures var (s', outcome) := Committed(s, record, disk);
            && s'.imports == s.imports
            && if Takes(s.directory, ReservationFile(record.reservationId), ReservationRecord(record), disk) then
                 && outcome.Ok? && outcome.value.1 == record
                 && s'.reservations == s.reservations[record.reservationId := Stored(record, None)]
               else outcome == Err(NotPersisted) && s'.reservations == s.reservations
  {
    hide ValidReservation;
  }

  lemma ChargesAfterGranting(s: LedgerState, record: Reservation, s': LedgerState, mine: Reservation -> bool)
    requires record.reservationId !in s.reservations
    requires s'.reservations == s.reservations[record.reservationId := Stored(record, None)]
    ensures record.reservationId !in Charges(s, mine)
    ensures Charges(s', mine)
         == if mine(record) then Charges(s, mine)[record.reservationId := Charge(Stored(record, None))]
            else Charges(s, mine)
  {
    hide Charge;
  }

  /** A granted reservation adds its whole caps to every sum it belongs to, once however often it is asked for. */
  lemma GrantAdds(s: LedgerState, request: Request, atMs: int, disk: Disk, mine: Reservation -> bool,
                  imported: LegacyImport -> bool)
    requires WellFormed(s) && Reserved(s, request, atMs, disk).1.Ok?
    ensures var (s', outcome) := Reserved(s, request, atMs, disk);
            var record := outcome.value.1;
            var whole := Charge(Stored(record, None));
            && Whole(whole, record.caps)
            && Used(s', mine, imported)
               == if record.reservationId !in s.reservations && mine(record) then Plus(Used(s, mine, imported), whole)
                  else Used(s, mine, imported)
  {
    assert forall id :: id in s.reservations ==> s.reservations[id].record.reservationId == id by {
      hide ValidReservation;
      hide ValidReconciliation;
      assert forall id :: id in s.reservations ==> SoundReservation(id, s.reservations[id]);
    }
    hide *;
    GrantsAreHeld(s, request, atMs, disk);
    var (s', outcome) := Reserved(s, request, atMs, disk);
    var record := outcome.value.1;
    ChargeMeans(Stored(record, None));
    if record.reservationId !in s.reservations {
      GrantedSum(s, record, s', mine, imported);
    }
  }

  lemma GrantedSum(s: LedgerState, record: Reservation, s': LedgerState, mine: Reservation -> bool,
                   imported: LegacyImport -> bool)
    requires record.reservationId !in s.reservations && s'.imports == s.imports
    requires s'.reservations == s.reservations[record.reservationId := Stored(record, None)]
    ensures Used(s', mine, imported)
         == if mine(record) then Plus(Used(s, mine, imported), Charge(Stored(record, None)))
            else Used(s, mine, imported)
  {
    hide Charge;
    hide Charges;
    hide ImportedCharges;
    hide Added;
    hide Plus;
    ChargesAfterGranting(s, record, s', mine);
    SameImportedCharges(s, s', imported);
    if mine(record) {
      AddedOfNew(Charges(s, mine), record.reservationId, Charge(Stored(record, None)));
      AddMiddle(Charge(Stored(record, None)), Added(Charges(s, mine)), Added(ImportedCharges(s, imported)));
    }
  }

  lemma AddMiddle(a: Amounts, b: Amounts, c: Amounts)
    ensures Plus(Plus(a, b), c) == Plus(Plus(b, c), a)
  {
  }
}
