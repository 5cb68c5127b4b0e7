/** A read against a conforming TPM, end to end, and what it says about the measurement log. */
module ReadRefinement {
  import opened Common
  import opened ErrorTranslation
  import opened PcrTypes
  import opened TpmStructures
  import opened PcrBitmap
  import opened PcrMarshalling
  import opened EsysPcrProvider
  import opened ProviderDiscipline
  import opened TpmDevice
  import opened MeasurementReplay

  /** The PCRs that a read of a selection gets: the first eight in ascending order, none of an inactive bank. */
  function ServedOf(chip: Chip, selection: Selection): seq<Index> {
    if selection.algorithm in chip.banks then FirstEight(Ascending(selection.indices)) else []
  }

  ghost function MembersOf(order: seq<Index>): set<Index> {
    set i: Index | i in order
  }

  lemma ServedIsAscending(chip: Chip, selection: Selection)
    ensures MembersOf(ServedOf(chip, selection)) <= selection.indices
    ensures ServedOf(chip, selection) == Ascending(MembersOf(ServedOf(chip, selection)))
    ensures |ServedOf(chip, selection)| == |MembersOf(ServedOf(chip, selection))| <= DIGEST_LIST_CAPACITY
  {
    var served := ServedOf(chip, selection);
    AscendingIsOrdered(selection.indices);
    AscendingIsOrdered(MembersOf(served));
    assert StrictlyIncreasing(served);
    AscendingIsUnique(served, Ascending(MembersOf(served)));
  }

  lemma RequestIsServed(legacy: bool, chip: Chip, selection: Selection)
    requires Enabled(legacy, selection.algorithm)
    ensures Served(chip, PackedSelection(legacy, selection).pcrSelections[0]) == ServedOf(chip, selection)
    ensures AlgorithmFromTpm(true, PackedSelection(legacy, selection).pcrSelections[0].hash) == Ok(selection.algorithm)
  {
    hide Bitmap, SelectedIn, Ascending, FirstEight;
    var s := PackedSelection(legacy, selection).pcrSelections[0];
    AlgorithmsCorrespond(true, selection.algorithm, s.hash);
    BitmapDenotes(selection.indices, s.sizeofSelect);
  }

  /** The selection in the reply is decoded to the set of PCRs that were served. */
  lemma ReplySelectionDecodes(legacy: bool, chip: Chip, selection: Selection)
    requires Enabled(legacy, selection.algorithm)
    ensures var s := PackedSelection(legacy, selection).pcrSelections[0];
            var served := MembersOf(ServedOf(chip, selection));
            UnpackedSelection(legacy, PackedEntry(s.(pcrSelect := Bitmap(served))), selection.algorithm) ==
              Ok(Selection(selection.algorithm, served))
  {
    var s := PackedSelection(legacy, selection).pcrSelections[0];
    var served := MembersOf(ServedOf(chip, selection));
    ServedIsAscending(chip, selection);
    AlgorithmsCorrespond(legacy, selection.algorithm, s.hash);
    assert forall i: Index :: i in served ==> i in selection.indices;
    BitmapDenotes(served, s.sizeofSelect);
  }

  /** The values of the reply are decoded to the registers of the served PCRs, in ascending order of index. */
  lemma ReplyValuesDecode(legacy: bool, chip: Chip, selection: Selection, r: Registers)
    requires Enabled(legacy, selection.algorithm)
    requires ValidRegisters(chip.banks, r)
    ensures var values := ReadValues(chip, r, PackedSelection(legacy, selection).pcrSelections[0]);
            var served := ServedOf(chip, selection);
            var actual := Selection(selection.algorithm, MembersOf(served));
            && AnswersSelection(values, actual)
            && values.count == |served|
            && forall k :: 0 <= k < |served| ==>
                 ValueAt(values, actual, k) ==
                   PcrValue(served[k], DigestValue(selection.algorithm, RegisterOf(r, selection.algorithm, served[k])))
  {
    hide Ascending, PackedSelection, FirstEight;
    var served := ServedOf(chip, selection);
    RequestIsServed(legacy, chip, selection);
    ServedIsAscending(chip, selection);
    forall k | 0 <= k < |served|
      ensures |RegisterOf(r, selection.algorithm, served[k])| == DigestSize(selection.algorithm)
      ensures Padded(RegisterOf(r, selection.algorithm, served[k]),
        DIGEST_BUFFER_SIZE)[..DigestSize(selection.algorithm)]
        == RegisterOf(r, selection.algorithm, served[k])
    {
    }
  }

  lemma AnswersAreUnpacked(list: DigestList, selection: Selection)
    requires AnswersSelection(list, selection)
    ensures UnpackedValues(list, selection) == Ok(ValuesOf(list, selection))
  {
  }

  /** The reply of a TPM that executes the read. */
  lemma ReadReply(env: Env, chip: Chip, s: ProviderState, selection: Selection)
    requires IsBackend(chip, env.backend) && Enabled(env.legacy, selection.algorithm)
    ensures var s1 := s.Invoke(PcrRead(PackedSelection(env.legacy, selection)));
            var request := PackedSelection(env.legacy, selection).pcrSelections[0];
            var reply := env.backend(s1.calls);
            && reply.rc == chip.refusal(s1.calls)
            && reply.updateCounter == chip.updateCounter(s1.calls)
            && (reply.rc == RC_SUCCESS ==>
                  && reply.selection == Some(PackedEntry(request.(pcrSelect :=
                    Bitmap(MembersOf(ServedOf(chip, selection))))))
                  && reply.values == Some(ReadValues(chip, After(chip, s.calls), request)))
  {
    hide PackedSelection, ServedOf, After, Served, ReadValues, Bitmap, EventList;
    var s1 := s.Invoke(PcrRead(PackedSelection(env.legacy, selection)));
    assert s1.calls[..|s1.calls| - 1] == s.calls;
    assert env.backend(s1.calls) == ReplyOf(chip, s1.calls);
    RequestIsServed(env.legacy, chip, selection);
    assert MembersOf(ServedOf(chip, selection)) == set i: Index | i in ServedOf(chip, selection);
  }

  /**
    Reading against a TPM that executes the command: the result's selection is what was served, a subset of the
    request, the k-th value is the register of its k-th smallest index, and the update counter is the TPM's. A refused
    command is the only failure.
   */
  lemma ReadReturnsRegisters(env: Env, chip: Chip, s: ProviderState, selection: Selection)
    requires IsBackend(chip, env.backend) && env.available && Enabled(env.legacy, selection.algorithm)
    ensures var r := Read(env, s, selection);
            var served := ServedOf(chip, selection);
            && (r.outcome.Ok? <==> chip.refusal(r.state.calls) == RC_SUCCESS)
            && (r.outcome.Ok? ==>
                  && r.outcome.value.updateCounter == chip.updateCounter(r.state.calls)
                  && r.outcome.value.actualSelection == Selection(selection.algorithm, MembersOf(served))
                  && r.outcome.value.actualSelection.indices <= selection.indices
                  && served == Ascending(r.outcome.value.actualSelection.indices)
                  && |r.outcome.value.values| == |served|
                  && forall k :: 0 <= k < |served| ==>
                       r.outcome.value.values[k] == PcrValue(served[k],
                         DigestValue(selection.algorithm,
                           RegisterOf(After(chip, s.calls), selection.algorithm, served[k]))))
  {
    hide Logs, Notifications, Frees, Category, Ascending, PackedSelection, FirstEight, ServedOf, After, ValueAt,
      AnswersSelection,
      Served, ReadValues, UnpackedSelection, UnpackedValues, Bitmap, PackedEntry, ValidChip, ReplyOf, RegisterOf;
    var request := PackedSelection(env.legacy, selection).pcrSelections[0];
    var served := ServedOf(chip, selection);
    ReadReply(env, chip, s, selection);
    ServedIsAscending(chip, selection);
    ReplySelectionDecodes(env.legacy, chip, selection);
    RegistersKeepShape(chip, s.calls);
    ReplyValuesDecode(env.legacy, chip, selection, After(chip, s.calls));
    AnswersAreUnpacked(ReadValues(chip, After(chip, s.calls), request),
      Selection(selection.algorithm, MembersOf(served)));
  }

  /** After any run, what a read returns for a PCR is the replay of the observer's log about it. */
  lemma ReadReturnsReplay(env: Env, chip: Chip, ops: seq<Op>, selection: Selection)
    requires IsBackend(chip, env.backend) && env.available && env.observed
    requires ValidOps(env.legacy, ops) && Enabled(env.legacy, selection.algorithm)
    requires chip.foreign == [] || NothingIsLost(env, chip, ops)
    ensures var t := TrackRun(env, ops);
            var r := Read(env, t.provider, selection);
            r.outcome.Ok? ==> forall v :: v in r.outcome.value.values ==>
              v.index in selection.indices
                && v.digest == DigestValue(selection.algorithm, Replayed(chip, t, selection.algorithm, v.index))
  {
    hide Read, After, Replayed, Ascending, FirstEight;
    var t := TrackRun(env, ops);
    var r := Read(env, t.provider, selection);
    ReadReturnsRegisters(env, chip, t.provider, selection);
    LogReplaysToRegisters(env, chip, ops);
    if r.outcome.Ok? {
      var served := ServedOf(chip, selection);
      forall v | v in r.outcome.value.values
        ensures v.index in selection.indices
          && v.digest == DigestValue(selection.algorithm, Replayed(chip, t, selection.algorithm, v.index))
      {
        var k :| 0 <= k < |served| && r.outcome.value.values[k] == v;
        assert served[k] in MembersOf(served);
        assert selection.algorithm in chip.banks;
      }
    }
  }
}
