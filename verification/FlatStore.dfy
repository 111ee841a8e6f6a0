/**
  The one flat map behind the in-memory provider, and the typed store it stands for.

  Every table lives in the same `HashMap<Vec<u8>, Vec<u8>>`; a table entry is found at
  `label ++ key ++ version`. `Flatten` maps a store indexed by (label, key, version) to that
  layout. The lemmas show that nothing is lost on the way: keys do not collide, each flat
  operation is the typed operation on one entry, and the label-prefix scan sees one table.
  */
module FlatStore {
  import opened Bytes
  import opened Renaming

  datatype Label =
    | KeyPackage | Psk | EncryptionKeyPair | SignatureKeyPair | EpochKeyPairs
    | Tree | GroupContext | ApplicationExportTree
    | VcEmulationEpochState | VcEmulationBinding | RegisteredVcEmulationEpoch | VcOperationTree
    | RetainedKeyPackageMaterial | RetainedKeyPackageEpoch
    | InterimTranscriptHash | ConfirmationTag
    | MlsGroupJoinConfig | OwnLeafNodes | GroupState | QueuedProposal | ProposalQueueRefs
    | OwnLeafNodeIndex | EpochSecrets | ResumptionPsk | MessageSecrets

  function Text(l: Label): (s: string) {
    match l
    case KeyPackage => "KeyPackage"
    case Psk => "Psk"
    case EncryptionKeyPair => "EncryptionKeyPair"
    case SignatureKeyPair => "SignatureKeyPair"
    case EpochKeyPairs => "EpochKeyPairs"
    case Tree => "Tree"
    case GroupContext => "GroupContext"
    case ApplicationExportTree => "ApplicationExportTree"
    case VcEmulationEpochState => "VcEmulationEpochState"
    case VcEmulationBinding => "VcEmulationBinding"
    case RegisteredVcEmulationEpoch => "RegisteredVcEmulationEpoch"
    case VcOperationTree => "VcOperationTree"
    case RetainedKeyPackageMaterial => "RetainedKeyPackageMaterial"
    case RetainedKeyPackageEpoch => "RetainedKeyPackageEpoch"
    case InterimTranscriptHash => "InterimTranscriptHash"
    case ConfirmationTag => "ConfirmationTag"
    case MlsGroupJoinConfig => "MlsGroupJoinConfig"
    case OwnLeafNodes => "OwnLeafNodes"
    case GroupState => "GroupState"
    case QueuedProposal => "QueuedProposal"
    case ProposalQueueRefs => "ProposalQueueRefs"
    case OwnLeafNodeIndex => "OwnLeafNodeIndex"
    case EpochSecrets => "EpochSecrets"
    case ResumptionPsk => "ResumptionPsk"
    case MessageSecrets => "MessageSecrets"
  }

  function LabelBytes(l: Label): (b: Bytes)
    ensures |b| == |Text(l)|
  {
    Ascii(Text(l))
  }

  const CURRENT_VERSION: u16 := 1

  /** `build_key_from_vec`. */
  function BuildKey(l: Label, key: Bytes, version: u16): (k: Bytes) {
    LabelBytes(l) + key + ToBE(version, 2)
  }

  /** `is_epoch_tag`. */
  predicate IsEpochTag(k: Bytes) {
    LabelBytes(RetainedKeyPackageEpoch) <= k
  }

  // ---- Labels are prefix-free ----

  predicate At(k: Bytes, i: nat, c: char) {
    i < |k| && k[i] == c as int
  }

  /** Reads the label off a storage key from the few bytes that tell labels apart. */
  function Identify(k: Bytes): (l: Option<Label>) {
    if At(k, 0, 'K') then Some(KeyPackage)
    else if At(k, 0, 'P') then if At(k, 1, 's') then Some(Psk) else Some(ProposalQueueRefs)
    else if At(k, 0, 'E') then
      if At(k, 1, 'n') then Some(EncryptionKeyPair)
      else if At(k, 5, 'K') then Some(EpochKeyPairs) else Some(EpochSecrets)
    else if At(k, 0, 'S') then Some(SignatureKeyPair)
    else if At(k, 0, 'T') then Some(Tree)
    else if At(k, 0, 'G') then if At(k, 5, 'C') then Some(GroupContext) else Some(GroupState)
    else if At(k, 0, 'A') then Some(ApplicationExportTree)
    else if At(k, 0, 'V') then
      if At(k, 2, 'O') then Some(VcOperationTree)
      else if At(k, 11, 'E') then Some(VcEmulationEpochState) else Some(VcEmulationBinding)
    else if At(k, 0, 'R') then
      if At(k, 2, 'g') then Some(RegisteredVcEmulationEpoch)
      else if At(k, 2, 's') then Some(ResumptionPsk)
      else if At(k, 18, 'M') then Some(RetainedKeyPackageMaterial) else Some(RetainedKeyPackageEpoch)
    else if At(k, 0, 'I') then Some(InterimTranscriptHash)
    else if At(k, 0, 'C') then Some(ConfirmationTag)
    else if At(k, 0, 'M') then if At(k, 1, 'l') then Some(MlsGroupJoinConfig) else Some(MessageSecrets)
    else if At(k, 0, 'O') then if At(k, 11, 's') then Some(OwnLeafNodes) else Some(OwnLeafNodeIndex)
    else if At(k, 0, 'Q') then Some(QueuedProposal)
    else None
  }

  lemma Letter(s: string, rest: Bytes, i: nat)
    requires i < |s| && s[i] < 128 as char
    ensures At(Ascii(s) + rest, i, s[i])
  {
  }

  lemma IdentifyCryptoLabel(l: Label, rest: Bytes)
    requires l.KeyPackage? || l.Psk? || l.EncryptionKeyPair? || l.SignatureKeyPair? || l.EpochKeyPairs?
    ensures Identify(LabelBytes(l) + rest) == Some(l)
  {
    if l.KeyPackage? { Letter("KeyPackage", rest, 0); }
    if l.Psk? { Letter("Psk", rest, 0); Letter("Psk", rest, 1); }
    if l.EncryptionKeyPair? { Letter("EncryptionKeyPair", rest, 0); Letter("EncryptionKeyPair", rest, 1); }
    if l.SignatureKeyPair? { Letter("SignatureKeyPair", rest, 0); }
    if l.EpochKeyPairs? {
      Letter("EpochKeyPairs", rest, 0);
      Letter("EpochKeyPairs", rest, 1);
      Letter("EpochKeyPairs", rest, 5);
    }
  }

  lemma IdentifyPublicGroupLabel(l: Label, rest: Bytes)
    requires l.Tree? || l.GroupContext? || l.InterimTranscriptHash? || l.ConfirmationTag? || l.ApplicationExportTree?
    ensures Identify(LabelBytes(l) + rest) == Some(l)
  {
    if l.Tree? { Letter("Tree", rest, 0); }
    if l.GroupContext? { Letter("GroupContext", rest, 0); Letter("GroupContext", rest, 5); }
    if l.InterimTranscriptHash? { Letter("InterimTranscriptHash", rest, 0); }
    if l.ConfirmationTag? { Letter("ConfirmationTag", rest, 0); }
    if l.ApplicationExportTree? { Letter("ApplicationExportTree", rest, 0); }
  }

  lemma IdentifyEmulationLabel(l: Label, rest: Bytes)
    requires l.VcEmulationEpochState? || l.VcEmulationBinding? || l.RegisteredVcEmulationEpoch? || l.VcOperationTree?
    ensures Identify(LabelBytes(l) + rest) == Some(l)
  {
    if l.VcEmulationEpochState? {
      Letter("VcEmulationEpochState", rest, 0);
      Letter("VcEmulationEpochState", rest, 2);
      Letter("VcEmulationEpochState", rest, 11);
    }
    if l.VcEmulationBinding? {
      Letter("VcEmulationBinding", rest, 0);
      Letter("VcEmulationBinding", rest, 2);
      Letter("VcEmulationBinding", rest, 11);
    }
    if l.RegisteredVcEmulationEpoch? {
      Letter("RegisteredVcEmulationEpoch", rest, 0);
      Letter("RegisteredVcEmulationEpoch", rest, 2);
    }
    if l.VcOperationTree? { Letter("VcOperationTree", rest, 0); Letter("VcOperationTree", rest, 2); }
  }

  lemma IdentifyRetainedLabel(l: Label, rest: Bytes)
    requires l.RetainedKeyPackageMaterial? || l.RetainedKeyPackageEpoch?
    ensures Identify(LabelBytes(l) + rest) == Some(l)
  {
    if l.RetainedKeyPackageMaterial? {
      Letter("RetainedKeyPackageMaterial", rest, 0);
      Letter("RetainedKeyPackageMaterial", rest, 2);
      Letter("RetainedKeyPackageMaterial", rest, 18);
    }
    if l.RetainedKeyPackageEpoch? {
      Letter("RetainedKeyPackageEpoch", rest, 0);
      Letter("RetainedKeyPackageEpoch", rest, 2);
      Letter("RetainedKeyPackageEpoch", rest, 18);
    }
  }

  lemma IdentifyMemberLabel(l: Label, rest: Bytes)
    requires l.MlsGroupJoinConfig? || l.OwnLeafNodes? || l.GroupState? || l.OwnLeafNodeIndex?
    ensures Identify(LabelBytes(l) + rest) == Some(l)
  {
    if l.MlsGroupJoinConfig? { Letter("MlsGroupJoinConfig", rest, 0); Letter("MlsGroupJoinConfig", rest, 1); }
    if l.OwnLeafNodes? { Letter("OwnLeafNodes", rest, 0); Letter("OwnLeafNodes", rest, 11); }
    if l.GroupState? { Letter("GroupState", rest, 0); Letter("GroupState", rest, 5); }
    if l.OwnLeafNodeIndex? { Letter("OwnLeafNodeIndex", rest, 0); Letter("OwnLeafNodeIndex", rest, 11); }
  }

  lemma IdentifyQueueLabel(l: Label, rest: Bytes)
    requires l.QueuedProposal? || l.ProposalQueueRefs?
    ensures Identify(LabelBytes(l) + rest) == Some(l)
  {
    if l.QueuedProposal? { Letter("QueuedProposal", rest, 0); }
    if l.ProposalQueueRefs? { Letter("ProposalQueueRefs", rest, 0); Letter("ProposalQueueRefs", rest, 1); }
  }

  lemma IdentifyEpochLabel(l: Label, rest: Bytes)
    requires l.EpochSecrets? || l.ResumptionPsk? || l.MessageSecrets?
    ensures Identify(LabelBytes(l) + rest) == Some(l)
  {
    if l.EpochSecrets? {
      Letter("EpochSecrets", rest, 0);
      Letter("EpochSecrets", rest, 1);
      Letter("EpochSecrets", rest, 5);
    }
    if l.ResumptionPsk? { Letter("ResumptionPsk", rest, 0); Letter("ResumptionPsk", rest, 2); }
    if l.MessageSecrets? { Letter("MessageSecrets", rest, 0); Letter("MessageSecrets", rest, 1); }
  }

  lemma IdentifyLabelled(l: Label, rest: Bytes)
    ensures Identify(LabelBytes(l) + rest) == Some(l)
  {
    match l
    case KeyPackage | Psk | EncryptionKeyPair | SignatureKeyPair | EpochKeyPairs => IdentifyCryptoLabel(l, rest);
    case Tree | GroupContext | InterimTranscriptHash | ConfirmationTag | ApplicationExportTree =>
         IdentifyPublicGroupLabel(l, rest);
    case VcEmulationEpochState | VcEmulationBinding | RegisteredVcEmulationEpoch | VcOperationTree =>
         IdentifyEmulationLabel(l, rest);
    case RetainedKeyPackageMaterial | RetainedKeyPackageEpoch => IdentifyRetainedLabel(l, rest);
    case MlsGroupJoinConfig | OwnLeafNodes | GroupState | OwnLeafNodeIndex => IdentifyMemberLabel(l, rest);
    case QueuedProposal | ProposalQueueRefs => IdentifyQueueLabel(l, rest);
    case _ => IdentifyEpochLabel(l, rest);
  }

  lemma LabelsPrefixFree(l: Label, l': Label)
    requires LabelBytes(l) <= LabelBytes(l')
    ensures l == l'
  {
    PrefixRest(LabelBytes(l), LabelBytes(l'));
    SameLabel(l, LabelBytes(l')[|LabelBytes(l)|..], l', []);
  }

  // ---- The typed store ----

  /** An entry of the typed store; versions are `u16`. */
  datatype Entry = Entry(table: Label, key: Bytes, version: u16)

  type Typed = map<Entry, Bytes>

  function KeyOf(x: Entry): (k: Bytes) {
    BuildKey(x.table, x.key, x.version)
  }

  lemma KeyOfInjective(x: Entry, y: Entry)
    requires KeyOf(x) == KeyOf(y)
    ensures x == y
  {
    var xv, yv := ToBE(x.version, 2), ToBE(y.version, 2);
    Assoc(LabelBytes(x.table), x.key, xv);
    Assoc(LabelBytes(y.table), y.key, yv);
    SameLabel(x.table, x.key + xv, y.table, y.key + yv);
    assert |x.key| == |y.key|;
    SplitEqual(x.key, xv, y.key, yv);
    assert Pow256(2) == 0x1_0000;
    RoundTripBE(x.version, 2);
    RoundTripBE(y.version, 2);
  }

  lemma SameLabel(l: Label, rest: Bytes, l': Label, rest': Bytes)
    requires LabelBytes(l) + rest == LabelBytes(l') + rest'
    ensures l == l' && rest == rest'
  {
    IdentifyLabelled(l, rest);
    IdentifyLabelled(l', rest');
    SplitEqual(LabelBytes(l), rest, LabelBytes(l'), rest');
  }

  lemma KeysInjective()
    ensures Injective(KeyOf)
  {
    forall x, y | KeyOf(x) == KeyOf(y)
      ensures x == y
    {
      KeyOfInjective(x, y);
    }
  }

  ghost function Flatten(t: Typed): (m: Store) {
    KeysInjective();
    Rekey(t, KeyOf)
  }

  lemma FlattenLookup(t: Typed, x: Entry)
    ensures KeyOf(x) in Flatten(t) <==> x in t
    ensures x in t ==> Flatten(t)[KeyOf(x)] == t[x]
  {
    KeysInjective();
    RekeyLookup(t, KeyOf, x);
  }

  /** Writing one typed entry is inserting one flat key. */
  lemma FlattenWrite(t: Typed, x: Entry, v: Bytes)
    ensures Flatten(t[x := v]) == Flatten(t)[KeyOf(x) := v]
  {
    KeysInjective();
    RekeyWrite(t, KeyOf, x, v);
  }

  /** Removing one typed entry is removing one flat key. */
  lemma FlattenDelete(t: Typed, x: Entry)
    ensures Flatten(t - {x}) == Flatten(t) - {KeyOf(x)}
  {
    KeysInjective();
    RekeyDelete(t, KeyOf, x);
  }

  /** A key that does not start with a label is never stored, so removing it changes nothing. */
  lemma FlattenForeignKey(t: Typed, k: Bytes)
    requires Identify(k) == None
    ensures k !in Flatten(t) && Flatten(t) - {k} == Flatten(t)
  {
    KeysInjective();
    forall x | x in t
      ensures KeyOf(x) != k
    {
      IdentifyLabelled(x.table, x.key + ToBE(x.version, 2));
      assert KeyOf(x) == LabelBytes(x.table) + (x.key + ToBE(x.version, 2));
    }
  }

  lemma EpochTagKey(x: Entry)
    ensures IsEpochTag(KeyOf(x)) <==> x.table == RetainedKeyPackageEpoch
  {
    var k, tag := KeyOf(x), LabelBytes(RetainedKeyPackageEpoch);
    assert k == LabelBytes(x.table) + (x.key + ToBE(x.version, 2));
    IdentifyLabelled(x.table, x.key + ToBE(x.version, 2));
    if IsEpochTag(k) {
      assert k == tag + k[|tag|..];
      IdentifyLabelled(RetainedKeyPackageEpoch, k[|tag|..]);
    }
  }

  /** The liveness scan: some flat key with the epoch-tag prefix holds `v`. */
  ghost predicate ScanEpochTags(m: Store, v: Bytes) {
    exists k :: k in m && IsEpochTag(k) && m[k] == v
  }

  /** The scan over all tables sees exactly the epoch-tag table. */
  lemma ScanIsTableScan(t: Typed, v: Bytes)
    ensures ScanEpochTags(Flatten(t), v)
       <==> exists x :: x in t && x.table == RetainedKeyPackageEpoch && t[x] == v
  {
    KeysInjective();
    var m := Flatten(t);
    if ScanEpochTags(m, v) {
      var k :| k in m && IsEpochTag(k) && m[k] == v;
      var x :| x in t && KeyOf(x) == k;
      EpochTagKey(x);
    }
    if x :| x in t && x.table == RetainedKeyPackageEpoch && t[x] == v {
      EpochTagKey(x);
      assert KeyOf(x) in m && m[KeyOf(x)] == v;
    }
  }
}
