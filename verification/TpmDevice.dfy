/**
  A TPM as the PCR commands see it, after sections 22.2 to 22.4 and 22.8 of TPM 2.0 Library Part 3: banks of 32
  registers, one hash function per bank, and a code for every command that it may refuse. The hash functions are
  arbitrary functions whose results have the right length.
 */
module TpmDevice {
  import opened Common
  import opened PcrTypes
  import opened TpmStructures
  import opened PcrBitmap
  import opened PcrMarshalling
  import opened PcrValidation
  import opened EsysPcrProvider

  const REGISTER_COUNT := 32

  type Registers = map<HashAlgorithm, seq<seq<byte>>>

  datatype Chip = Chip(
    hash: (HashAlgorithm, seq<byte>) -> seq<byte>,
    /** The active banks that the library knows, in the order in which the TPM lists them. */
    banks: seq<HashAlgorithm>,
    /** The other active banks, listed after the known ones, and the digests that event data has in them. */
    foreign: seq<AlgId>,
    foreignDigest: (AlgId, seq<byte>) -> DigestBuffer,
    initial: Registers,
    resetValue: (HashAlgorithm, Index) -> seq<byte>,
    /** The code with which the last command of a history is refused; zero if it is executed. */
    refusal: seq<Call> -> TssRc,
    updateCounter: seq<Call> -> Uint32,
    allocation: seq<Call> -> AllocateResult)

  ghost predicate ValidRegisters(banks: seq<HashAlgorithm>, r: Registers) {
    && (forall a :: a in r <==> a in banks)
    && forall a :: a in r ==> |r[a]| == REGISTER_COUNT && forall i :: 0 <= i < REGISTER_COUNT ==>
      |r[a][i]| == DigestSize(a)
  }

  predicate IsForeign(id: AlgId) {
    AlgorithmFromTpm(true, id).Err?
  }

  ghost predicate ValidChip(chip: Chip) {
    && (forall a, data :: |chip.hash(a, data)| == DigestSize(a))
    && Distinct(chip.banks)
    && |chip.banks| + |chip.foreign| <= NUM_PCR_BANKS
    && (forall k :: 0 <= k < |chip.foreign| ==> IsForeign(chip.foreign[k]))
    && ValidRegisters(chip.banks, chip.initial)
    && forall a, i :: |chip.resetValue(a, i)| == DigestSize(a)
  }

  /**
    One digest of an extend: the register becomes the hash of its old value and the digest; inactive banks are passed
    over.
   */
  function ExtendOne(chip: Chip, r: Registers, pcr: nat, h: HashDigest): Registers {
    match AlgorithmFromTpm(true, h.hashAlg)
    case Err(_) => r
    case Ok(a) =>
      if a in r && pcr < |r[a]| then r[a := r[a][pcr := chip.hash(a, r[a][pcr] + h.digest[..DigestSize(a)])]] else r
  }

  function ExtendAll(chip: Chip, r: Registers, pcr: nat, entries: seq<HashDigest>): Registers {
    if entries == [] then r
    else ExtendOne(chip, ExtendAll(chip, r, pcr, entries[..|entries| - 1]), pcr, entries[|entries| - 1])
  }

  /** The digests of event data, one for every active bank. */
  function EventDigests(chip: Chip, data: seq<byte>): (ds: seq<DigestValue>)
    ensures |ds| == |chip.banks|
    ensures forall k :: 0 <= k < |ds| ==> ds[k] == DigestValue(chip.banks[k], chip.hash(chip.banks[k], data))
  {
    seq(|chip.banks|, k requires 0 <= k < |chip.banks| => DigestValue(chip.banks[k], chip.hash(chip.banks[k], data)))
  }

  lemma EventDigestsFit(chip: Chip, data: seq<byte>)
    requires ValidChip(chip)
    ensures ValidDigests(true, EventDigests(chip, data)) && |EventDigests(chip, data)| <= NUM_PCR_BANKS
  {
    DistinctListsAreShort(true, chip.banks);
  }

  /** The entries that an event replies with: one for every known bank, and then one for every other. */
  ghost function EventEntries(chip: Chip, data: seq<byte>): (entries: seq<HashDigest>)
    requires ValidChip(chip)
    ensures |entries| == |chip.banks| + |chip.foreign|
  {
    EventDigestsFit(chip, data);
    PackedDigests(true, EventDigests(chip, data)).digests[..|chip.banks|] + ForeignEntries(chip, data)
  }

  ghost function ForeignEntries(chip: Chip, data: seq<byte>): (entries: seq<HashDigest>)
    ensures |entries| == |chip.foreign|
    ensures forall k :: 0 <= k < |entries| ==> entries[k].hashAlg == chip.foreign[k]
  {
    seq(|chip.foreign|, k requires 0 <= k < |chip.foreign| =>
      HashDigest(chip.foreign[k], chip.foreignDigest(chip.foreign[k], data)))
  }

  ghost function EventList(chip: Chip, data: seq<byte>): (list: DigestValueList)
    requires ValidChip(chip)
    ensures list.count == |chip.banks| + |chip.foreign| <= NUM_PCR_BANKS
    ensures list.digests[..list.count] == EventEntries(chip, data)
  {
    var entries := EventEntries(chip, data);
    DigestValueList(|entries|, entries + seq(NUM_PCR_BANKS - |entries|, _ => EMPTY_HASH_DIGEST))
  }

  function ResetAll(chip: Chip, r: Registers, pcr: nat): Registers {
    map a | a in r :: if pcr < |r[a]| && pcr <= MAX_INDEX then r[a][pcr := chip.resetValue(a, pcr)] else r[a]
  }

  function EventData(event: SizedEvent): seq<byte> {
    if event.size <= EVENT_BUFFER_SIZE then event.buffer[..event.size] else event.buffer
  }

  /** What executing a command does to the registers. A new allocation takes effect only at the next power-on. */
  ghost function Execute(chip: Chip, r: Registers, call: Call): Registers
    requires ValidChip(chip)
  {
    match call
    case PcrExtend(handle, list) =>
      ExtendAll(chip, r, handle - ESYS_TR_PCR0, if list.count <= NUM_PCR_BANKS then list.digests[..list.count]
      else list.digests)
    case PcrEvent(handle, event) =>
      var list := EventList(chip, EventData(event));
      ExtendAll(chip, r, handle - ESYS_TR_PCR0, list.digests[..list.count])
    case PcrReset(handle) => ResetAll(chip, r, handle - ESYS_TR_PCR0)
    case _ => r
  }

  /** The registers after a history of commands; a refused command changes nothing. */
  ghost function After(chip: Chip, calls: seq<Call>): Registers
    requires ValidChip(chip)
  {
    if calls == [] then chip.initial
    else
      var n := |calls| - 1;
      var r := After(chip, calls[..n]);
      if chip.refusal(calls) != RC_SUCCESS then r else Execute(chip, r, calls[n])
  }

  /** A read serves the first eight selected PCRs of the bank, or none if the bank is not active. */
  function Served(chip: Chip, s: PcrSelect): seq<Index> {
    match AlgorithmFromTpm(true, s.hash)
    case Err(_) => []
    case Ok(a) =>
      if a !in chip.banks then []
      else FirstEight(Ascending(SelectedIn(s.pcrSelect, s.sizeofSelect)))
  }

  function FirstEight(order: seq<Index>): seq<Index> {
    if |order| <= DIGEST_LIST_CAPACITY then order else order[..DIGEST_LIST_CAPACITY]
  }

  ghost function RegisterOf(r: Registers, a: HashAlgorithm, i: Index): seq<byte> {
    if a in r && i < |r[a]| then r[a][i] else []
  }

  ghost function ServedDigest(r: Registers, s: PcrSelect, i: Index): SizedDigest {
    match AlgorithmFromTpm(true, s.hash)
    case Err(_) => EMPTY_SIZED_DIGEST
    case Ok(a) =>
      var bytes := RegisterOf(r, a, i);
      if |bytes| <= DIGEST_BUFFER_SIZE then SizedDigest(|bytes|, Padded(bytes, DIGEST_BUFFER_SIZE))
        else EMPTY_SIZED_DIGEST
  }

  ghost function ReadValues(chip: Chip, r: Registers, s: PcrSelect): DigestList {
    var order := Served(chip, s);
    DigestList(if |order| <= DIGEST_LIST_CAPACITY then |order| else DIGEST_LIST_CAPACITY,
      seq(DIGEST_LIST_CAPACITY, k requires 0 <= k =>
        if k < |order| then ServedDigest(r, s, order[k]) else EMPTY_SIZED_DIGEST))
  }

  /** The reply to the last command of a history. */
  ghost function ReplyOf(chip: Chip, calls: seq<Call>): Reply
    requires ValidChip(chip)
  {
    var nothing := Reply(chip.refusal(calls), None, None, None, chip.updateCounter(calls), chip.allocation(calls));
    if calls == [] || nothing.rc != RC_SUCCESS then nothing
    else
      match calls[|calls| - 1]
      case PcrEvent(_, event) => nothing.(digests := Some(EventList(chip, EventData(event))))
      case PcrRead(list) =>
        var s := list.pcrSelections[0];
        nothing.(selection := Some(PackedEntry(s.(pcrSelect := Bitmap(set i: Index | i in Served(chip, s))))),
                 values := Some(ReadValues(chip, After(chip, calls[..|calls| - 1]), s)))
      case _ => nothing
  }

  /** The backend of a provider is this TPM. */
  ghost predicate IsBackend(chip: Chip, backend: Backend) {
    ValidChip(chip) && forall calls :: backend(calls) == ReplyOf(chip, calls)
  }

  lemma AfterAppend(chip: Chip, calls: seq<Call>, call: Call)
    requires ValidChip(chip)
    ensures After(chip, calls + [call]) ==
              if chip.refusal(calls + [call]) != RC_SUCCESS then After(chip, calls)
                else Execute(chip, After(chip, calls), call)
  {
    assert (calls + [call])[..|calls|] == calls;
  }

  lemma ExtendAppend(chip: Chip, r: Registers, pcr: nat, entries: seq<HashDigest>, h: HashDigest)
    ensures ExtendAll(chip, r, pcr, entries + [h]) == ExtendOne(chip, ExtendAll(chip, r, pcr, entries), pcr, h)
  {
    assert (entries + [h])[..|entries|] == entries;
  }

  lemma {:induction false} ExtendAllKeepsShape(chip: Chip, r: Registers, pcr: nat, entries: seq<HashDigest>)
    requires ValidChip(chip) && ValidRegisters(chip.banks, r)
    ensures ValidRegisters(chip.banks, ExtendAll(chip, r, pcr, entries))
  {
    if entries != [] {
      ExtendAllKeepsShape(chip, r, pcr, entries[..|entries| - 1]);
    }
  }

  lemma ResetKeepsShape(chip: Chip, r: Registers, pcr: nat)
    requires ValidChip(chip) && ValidRegisters(chip.banks, r)
    ensures ValidRegisters(chip.banks, ResetAll(chip, r, pcr))
  {
  }

  lemma ExecuteKeepsShape(chip: Chip, r: Registers, call: Call)
    requires ValidChip(chip) && ValidRegisters(chip.banks, r)
    ensures ValidRegisters(chip.banks, Execute(chip, r, call))
  {
    hide ValidRegisters, ValidChip, ExtendAll, ResetAll, EventList;
    match call
    case PcrExtend(handle, list) =>
      ExtendAllKeepsShape(chip, r, handle, if list.count <= NUM_PCR_BANKS then list.digests[..list.count]
        else list.digests);
    case PcrEvent(handle, event) =>
      var list := EventList(chip, EventData(event));
      ExtendAllKeepsShape(chip, r, handle, list.digests[..list.count]);
    case PcrReset(handle) =>
      ResetKeepsShape(chip, r, handle);
    case _ =>
  }

  /** Every history leaves every register of every active bank with a digest of the bank's size. */
  lemma {:induction false} RegistersKeepShape(chip: Chip, calls: seq<Call>)
    requires ValidChip(chip)
    ensures ValidRegisters(chip.banks, After(chip, calls))
  {
    if calls == [] {
    } else {
      hide ValidRegisters, Execute, ValidChip;
      var n := |calls| - 1;
      RegistersKeepShape(chip, calls[..n]);
      ExecuteKeepsShape(chip, After(chip, calls[..n]), calls[n]);
    }
  }
}
