/**
 * Saving a session as JSON and loading it again. Byte arrays become number arrays on the way
 * out; on the way in every non-empty array of numbers becomes a byte array.
 */
module Persistence {
  import opened Data
  import opened Json
  import opened Ratchet

  /** JavaScript values as the session manager sees them: JSON and byte arrays. */
  datatype Value =
    | VNull
    | VBool(b: bool)
    | VNum(n: int)
    | VStr(s: string)
    | VArr(items: seq<Value>)
    | VObj(fields: seq<VField>)
    | VBytes(bytes: Bytes)

  datatype VField = VField(key: string, value: Value)

  // ---------------------------------------------------------------- convertUint8ArraysForJSON

  function Convert(v: Value): Json
    decreases v, 1
  {
    match v
    case VNull => Null
    case VBool(b) => Bool(b)
    case VNum(n) => Num(n)
    case VStr(s) => Str(s)
    case VArr(items) => Arr(ConvertItems(items))
    case VObj(fields) => Obj(ConvertFields(fields))
    case VBytes(bytes) => Arr(ByteNumbers(bytes))
  }

  function ConvertItems(vs: seq<Value>): (r: seq<Json>)
    ensures |r| == |vs| && forall i | 0 <= i < |vs| :: r[i] == Convert(vs[i])
    decreases vs, 0
  {
    if vs == [] then [] else [Convert(vs[0])] + ConvertItems(vs[1..])
  }

  function ConvertFields(fs: seq<VField>): (r: seq<Field>)
    ensures |r| == |fs| && forall i | 0 <= i < |fs| :: r[i] == Field(fs[i].key, Convert(fs[i].value))
    decreases fs, 0
  {
    if fs == [] then [] else [Field(fs[0].key, Convert(fs[0].value))] + ConvertFields(fs[1..])
  }

  // ---------------------------------------------------------------- restoreUint8Arrays

  predicate AllNumbers(vs: seq<Json>) {
    vs != [] && forall i | 0 <= i < |vs| :: vs[i].Num?
  }

  /** The Uint8Array constructor reduces each number modulo 256. */
  function Octets(vs: seq<Json>): (b: Bytes)
    requires AllNumbers(vs)
    ensures |b| == |vs|
  {
    seq(|vs|, i requires 0 <= i < |vs| => (vs[i].n % 256) as byte)
  }

  function Restore(j: Json): Value
    decreases j, 1
  {
    match j
    case Null => VNull
    case Bool(b) => VBool(b)
    case Num(n) => VNum(n)
    case Str(s) => VStr(s)
    case Arr(items) => if AllNumbers(items) then VBytes(Octets(items)) else VArr(RestoreItems(items))
    case Obj(fields) => VObj(RestoreFields(fields))
  }

  function RestoreItems(js: seq<Json>): (r: seq<Value>)
    ensures |r| == |js| && forall i | 0 <= i < |js| :: r[i] == Restore(js[i])
    decreases js, 0
  {
    if js == [] then [] else [Restore(js[0])] + RestoreItems(js[1..])
  }

  function RestoreFields(fs: seq<Field>): (r: seq<VField>)
    ensures |r| == |fs| && forall i | 0 <= i < |fs| :: r[i] == VField(fs[i].key, Restore(fs[i].value))
    decreases fs, 0
  {
    if fs == [] then [] else [VField(fs[0].key, Restore(fs[0].value))] + RestoreFields(fs[1..])
  }

  // ---------------------------------------------------------------- what survives the round trip

  /** No empty byte array anywhere, and no plain array that is a non-empty list of numbers only. */
  predicate Restorable(v: Value)
    decreases v
  {
    match v
    case VBytes(bytes) => bytes != []
    case VArr(items) =>
      && (items != [] ==> exists i | 0 <= i < |items| :: !items[i].VNum?)
      && forall i | 0 <= i < |items| :: Restorable(items[i])
    case VObj(fields) => forall i | 0 <= i < |fields| :: Restorable(fields[i].value)
    case _ => true
  }

  lemma BytesRestored(bytes: Bytes)
    ensures Restore(Convert(VBytes(bytes))) == VBytes(bytes) <==> bytes != []
  {
    if bytes != [] {
      assert Octets(ByteNumbers(bytes)) == bytes;
    }
  }

  lemma {:induction false} NumbersStayNumbers(items: seq<Value>)
    ensures AllNumbers(ConvertItems(items)) <==> items != [] && forall i | 0 <= i < |items| :: items[i].VNum?
  {
    forall i | 0 <= i < |items| ensures ConvertItems(items)[i].Num? <==> items[i].VNum? {
      assert ConvertItems(items)[i] == Convert(items[i]);
    }
  }

  lemma {:induction false} ItemsRestored(items: seq<Value>, js: seq<Json>)
    requires |js| == |items|
    ensures RestoreItems(js) == items <==> forall i | 0 <= i < |items| :: Restore(js[i]) == items[i]
  {
  }

  /** Restoring undoes converting for exactly the restorable values. */
  lemma {:induction false} RoundTrip(v: Value)
    ensures Restore(Convert(v)) == v <==> Restorable(v)
    decreases v
  {
    match v
    case VBytes(bytes) => BytesRestored(bytes);
    case VArr(items) =>
      var js := ConvertItems(items);
      forall i | 0 <= i < |items| ensures Restore(js[i]) == items[i] <==> Restorable(items[i]) { RoundTrip(items[i]); }
      NumbersStayNumbers(items);
      ItemsRestored(items, js);
    case VObj(fields) =>
      var js := ConvertFields(fields);
      forall i | 0 <= i < |fields| ensures Restore(js[i].value) == fields[i].value <==> Restorable(fields[i].value) {
        RoundTrip(fields[i].value);
      }
      assert RestoreFields(js) == fields <==> forall i | 0 <= i < |fields| :: Restorable(fields[i].value);
    case _ =>
  }

  // ---------------------------------------------------------------- getState

  function OptionalBytes(b: Option<Bytes>): Value {
    if b.Some? then VBytes(b.value) else VNull
  }

  function ChainValue(c: Option<Chain>): Value {
    if c.Some? then VObj([VField("chainKey", VBytes(c.value.key)), VField("messageNumber", VNum(c.value.number))])
    else VNull
  }

  function EntryValue(e: Entry): Value {
    VArr([VStr(e.name), VBytes(e.messageKey)])
  }

  function EntryValues(es: seq<Entry>): (vs: seq<Value>)
    ensures |vs| == |es|
  {
    seq(|es|, i requires 0 <= i < |es| => EntryValue(es[i]))
  }

  function PairValue(pair: KeyPair): Value {
    VObj([VField("publicKey", VBytes(pair.publicKey)), VField("secretKey", VBytes(pair.secretKey))])
  }

  function DhValue(st: State): Value {
    VObj([VField("rootKey", VBytes(st.rootKey)),
          VField("localKeyPair", PairValue(st.localKeyPair)),
          VField("remotePublicKey", OptionalBytes(st.remotePublicKey))])
  }

  function StateValue(st: State): Value {
    VObj([VField("dhRatchet", DhValue(st)),
          VField("sendingChain", ChainValue(st.sendingChain)),
          VField("receivingChain", ChainValue(st.receivingChain)),
          VField("currentDHPublicKey", OptionalBytes(st.currentDHPublicKey)),
          VField("previousChainLength", VNum(st.previousChainLength)),
          VField("skippedMessageKeys", VArr(EntryValues(st.skipped)))])
  }

  // ---------------------------------------------------------------- fromState

  /** Member access; a missing member is undefined, which the code treats like null. */
  function Get(fs: seq<VField>, key: string): Value {
    if fs == [] then VNull
    else if fs[0].key == key then fs[0].value
    else Get(fs[1..], key)
  }

  function Member(v: Value, key: string): Value {
    if v.VObj? then Get(v.fields, key) else VNull
  }

  function AsBytes(v: Value): Bytes {
    if v.VBytes? then v.bytes else []
  }

  function AsOptional(v: Value): Option<Bytes> {
    if v.VBytes? then Some(v.bytes) else None
  }

  function AsNumber(v: Value): nat {
    if v.VNum? && v.n >= 0 then v.n else 0
  }

  function AsChain(v: Value): Option<Chain> {
    if v == VNull then None
    else Some(Chain(AsBytes(Member(v, "chainKey")), AsNumber(Member(v, "messageNumber"))))
  }

  /** new Map(entries): later entries overwrite earlier ones of the same name. */
  function AsEntries(vs: seq<Value>): seq<Entry> {
    if vs == [] then []
    else
      var es, v := AsEntries(vs[..|vs| - 1]), vs[|vs| - 1];
      if v.VArr? && |v.items| == 2 && v.items[0].VStr? && v.items[1].VBytes?
      then SetEntry(es, v.items[0].s, v.items[1].bytes)
      else es
  }

  function FromState(v: Value): State {
    var dh := Member(v, "dhRatchet");
    var pair := Member(dh, "localKeyPair");
    State(AsBytes(Member(dh, "rootKey")),
          KeyPair(AsBytes(Member(pair, "publicKey")), AsBytes(Member(pair, "secretKey"))),
          AsOptional(Member(dh, "remotePublicKey")),
          AsChain(Member(v, "sendingChain")),
          AsChain(Member(v, "receivingChain")),
          AsOptional(Member(v, "currentDHPublicKey")),
          AsNumber(Member(v, "previousChainLength")),
          if Member(v, "skippedMessageKeys").VArr? then AsEntries(Member(v, "skippedMessageKeys").items) else [])
  }

  // ---------------------------------------------------------------- files

  function SessionFields(localIdentity: string, remoteIdentity: string, createdAt: int, state: Value): seq<VField> {
    [VField("version", VNum(1)),
     VField("localIdentity", VStr(localIdentity)),
     VField("remoteIdentity", VStr(remoteIdentity)),
     VField("createdAt", VNum(createdAt)),
     VField("state", state)]
  }

  /** What saveSession writes. */
  function SessionFile(localIdentity: string, remoteIdentity: string, createdAt: int, st: State): Json {
    Convert(VObj(SessionFields(localIdentity, remoteIdentity, createdAt, StateValue(st))))
  }

  function JsonMember(j: Json, key: string): Json {
    if j.Obj? then JsonGet(j.fields, key) else Null
  }

  function JsonGet(fs: seq<Field>, key: string): Json {
    if fs == [] then Null
    else if fs[0].key == key then fs[0].value
    else JsonGet(fs[1..], key)
  }

  /** What loadSession makes of a file. */
  function LoadFile(file: Json): State {
    FromState(Restore(JsonMember(file, "state")))
  }

  // ---------------------------------------------------------------- the file, member by member

  function ChainFile(c: Option<Chain>): Json {
    if c.Some? then Obj([Field("chainKey", Arr(ByteNumbers(c.value.key))), Field("messageNumber", Num(c.value.number))])
    else Null
  }

  function EntryFiles(es: seq<Entry>): (r: seq<Json>)
    ensures |r| == |es|
  {
    seq(|es|, i requires 0 <= i < |es| => Arr([Str(es[i].name), Arr(ByteNumbers(es[i].messageKey))]))
  }

  function BytesFile(b: Option<Bytes>): Json {
    if b.Some? then Arr(ByteNumbers(b.value)) else Null
  }

  lemma ConvertedEntry(e: Entry)
    ensures Convert(EntryValue(e)) == Arr([Str(e.name), Arr(ByteNumbers(e.messageKey))])
  {
    assert EntryValue(e).items[1..] == [VBytes(e.messageKey)];
    assert ConvertItems(EntryValue(e).items) == [Str(e.name), Arr(ByteNumbers(e.messageKey))];
  }

  lemma ConvertedEntries(es: seq<Entry>)
    ensures Convert(VArr(EntryValues(es))) == Arr(EntryFiles(es))
  {
    forall i | 0 <= i < |es| ensures ConvertItems(EntryValues(es))[i] == EntryFiles(es)[i] {
      ConvertedEntry(es[i]);
    }
    assert ConvertItems(EntryValues(es)) == EntryFiles(es);
  }

  lemma ConvertedChain(c: Option<Chain>)
    ensures Convert(ChainValue(c)) == ChainFile(c)
  {
    if c.Some? {
      assert ConvertFields(ChainValue(c).fields)
        == [Field("chainKey", Arr(ByteNumbers(c.value.key))), Field("messageNumber", Num(c.value.number))];
    }
  }

  lemma ConvertedDh(st: State)
    ensures Convert(DhValue(st)) == Obj([
      Field("rootKey", Arr(ByteNumbers(st.rootKey))),
      Field("localKeyPair", Obj([Field("publicKey", Arr(ByteNumbers(st.localKeyPair.publicKey))),
                                 Field("secretKey", Arr(ByteNumbers(st.localKeyPair.secretKey)))])),
      Field("remotePublicKey", BytesFile(st.remotePublicKey))])
  {
    var pair := PairValue(st.localKeyPair);
    assert ConvertFields(pair.fields) == [Field("publicKey", Arr(ByteNumbers(st.localKeyPair.publicKey))),
                                          Field("secretKey", Arr(ByteNumbers(st.localKeyPair.secretKey)))];
    assert ConvertFields(DhValue(st).fields) == [
      Field("rootKey", Convert(VBytes(st.rootKey))), Field("localKeyPair", Convert(pair)),
      Field("remotePublicKey", Convert(OptionalBytes(st.remotePublicKey)))];
  }

  function StateFile(st: State): Json {
    Obj([
      Field("dhRatchet", Obj([
        Field("rootKey", Arr(ByteNumbers(st.rootKey))),
        Field("localKeyPair", Obj([Field("publicKey", Arr(ByteNumbers(st.localKeyPair.publicKey))),
                                   Field("secretKey", Arr(ByteNumbers(st.localKeyPair.secretKey)))])),
        Field("remotePublicKey", BytesFile(st.remotePublicKey))])),
      Field("sendingChain", ChainFile(st.sendingChain)),
      Field("receivingChain", ChainFile(st.receivingChain)),
      Field("currentDHPublicKey", BytesFile(st.currentDHPublicKey)),
      Field("previousChainLength", Num(st.previousChainLength)),
      Field("skippedMessageKeys", Arr(EntryFiles(st.skipped)))])
  }

  lemma ConvertedState(st: State)
    ensures Convert(StateValue(st)) == StateFile(st)
  {
    ConvertedDh(st);
    ConvertedChain(st.sendingChain);
    ConvertedChain(st.receivingChain);
    ConvertedEntries(st.skipped);
    assert ConvertFields(StateValue(st).fields) == [
      Field("dhRatchet", Convert(DhValue(st))), Field("sendingChain", Convert(ChainValue(st.sendingChain))),
      Field("receivingChain", Convert(ChainValue(st.receivingChain))),
      Field("currentDHPublicKey", Convert(OptionalBytes(st.currentDHPublicKey))),
      Field("previousChainLength", Num(st.previousChainLength)),
      Field("skippedMessageKeys", Convert(VArr(EntryValues(st.skipped))))];
  }

  /** The JSON that is written, member by member; every key in it is an array of its octets. */
  lemma SessionFileSpelled(localIdentity: string, remoteIdentity: string, createdAt: int, st: State)
    ensures SessionFile(localIdentity, remoteIdentity, createdAt, st) == Obj([
      Field("version", Num(1)),
      Field("localIdentity", Str(localIdentity)),
      Field("remoteIdentity", Str(remoteIdentity)),
      Field("createdAt", Num(createdAt)),
      Field("state", StateFile(st))])
  {
    ConvertedState(st);
    var fs := SessionFields(localIdentity, remoteIdentity, createdAt, StateValue(st));
    assert ConvertFields(fs) == [
      Field("version", Num(1)), Field("localIdentity", Str(localIdentity)),
      Field("remoteIdentity", Str(remoteIdentity)), Field("createdAt", Num(createdAt)),
      Field("state", Convert(StateValue(st)))];
  }

  /** A JSON array is taken for bytes exactly when it is not empty and holds numbers only; each counts modulo 256. */
  lemma ArrayRestored(items: seq<Json>)
    ensures var v := Restore(Arr(items));
      && (v.VBytes? <==> items != [] && forall i | 0 <= i < |items| :: items[i].Num?)
      && (v.VBytes? ==>
            && |v.bytes| == |items|
            && forall i | 0 <= i < |items| :: exists k: int :: items[i].n == v.bytes[i] as int + k * 256)
      && (!v.VBytes? ==>
            && v.VArr? && |v.items| == |items|
            && forall i | 0 <= i < |items| :: v.items[i] == Restore(items[i]))
  {
    var v := Restore(Arr(items));
    if v.VBytes? {
      forall i | 0 <= i < |items| ensures exists k: int :: items[i].n == v.bytes[i] as int + k * 256 {
        assert items[i].n == v.bytes[i] as int + items[i].n / 256 * 256;
      }
    }
  }

  // ---------------------------------------------------------------- sessions survive

  predicate UniqueNames(es: seq<Entry>) {
    forall i, j | 0 <= i < j < |es| :: es[i].name != es[j].name
  }

  /** No key is an empty byte array, and the skipped-key map has one entry a name. */
  predicate Storable(st: State) {
    && st.rootKey != [] && st.localKeyPair.publicKey != [] && st.localKeyPair.secretKey != []
    && st.remotePublicKey != Some([]) && st.currentDHPublicKey != Some([])
    && (st.sendingChain.Some? ==> st.sendingChain.value.key != [])
    && (st.receivingChain.Some? ==> st.receivingChain.value.key != [])
    && UniqueNames(st.skipped)
    && forall i | 0 <= i < |st.skipped| :: st.skipped[i].messageKey != []
  }

  lemma LastEntry(vs: seq<Value>, e: Entry)
    ensures AsEntries(vs + [EntryValue(e)]) == SetEntry(AsEntries(vs), e.name, e.messageKey)
  {
    assert (vs + [EntryValue(e)])[..|vs|] == vs;
  }

  lemma {:induction false} EntriesSurvive(es: seq<Entry>)
    requires UniqueNames(es)
    ensures AsEntries(EntryValues(es)) == es
  {
    if es == [] {
    } else {
      var most, last := es[..|es| - 1], es[|es| - 1];
      EntriesSurvive(most);
      assert !HasEntry(most, last.name);
      SetNewEntry(most, last.name, last.messageKey);
      assert EntryValues(es) == EntryValues(most) + [EntryValue(last)];
      LastEntry(EntryValues(most), last);
      assert es == most + [last];
    }
  }

  lemma ChainRestorable(c: Option<Chain>)
    requires c.Some? ==> c.value.key != []
    ensures Restorable(ChainValue(c))
  {
    if c.Some? {
      assert Restorable(VBytes(c.value.key)) && Restorable(VNum(c.value.number));
    }
  }

  lemma {:induction false} StateRestorable(st: State)
    requires Storable(st)
    ensures Restorable(StateValue(st))
  {
    forall i | 0 <= i < |st.skipped| ensures Restorable(EntryValues(st.skipped)[i]) {
      assert EntryValue(st.skipped[i]).items[0].VStr?;
    }
    if st.skipped == [] {
    } else {
      assert !EntryValues(st.skipped)[0].VNum?;
    }
    assert Restorable(VArr(EntryValues(st.skipped)));
    ChainRestorable(st.sendingChain);
    ChainRestorable(st.receivingChain);
    assert Restorable(PairValue(st.localKeyPair));
    assert Restorable(DhValue(st));
  }

  lemma {:induction false} GetConverted(fs: seq<VField>, key: string)
    ensures JsonGet(ConvertFields(fs), key) == Convert(Get(fs, key))
  {
    if fs == [] || fs[0].key == key {
    } else {
      GetConverted(fs[1..], key);
      assert ConvertFields(fs)[1..] == ConvertFields(fs[1..]);
    }
  }

  lemma {:induction false} GetAt(fs: seq<VField>, i: nat)
    requires i < |fs| && forall j | 0 <= j < i :: fs[j].key != fs[i].key
    ensures Get(fs, fs[i].key) == fs[i].value
  {
    if i == 0 {
    } else {
      assert fs[0].key != fs[i].key;
      GetAt(fs[1..], i - 1);
    }
  }

  lemma DhMembers(st: State)
    ensures var dh := DhValue(st); var pair := Member(dh, "localKeyPair");
      && Member(dh, "rootKey") == VBytes(st.rootKey)
      && Member(dh, "remotePublicKey") == OptionalBytes(st.remotePublicKey)
      && pair == PairValue(st.localKeyPair)
      && Member(pair, "publicKey") == VBytes(st.localKeyPair.publicKey)
      && Member(pair, "secretKey") == VBytes(st.localKeyPair.secretKey)
  {
    var fs, ps := DhValue(st).fields, PairValue(st.localKeyPair).fields;
    GetAt(fs, 0);
    GetAt(fs, 1);
    GetAt(fs, 2);
    GetAt(ps, 0);
    GetAt(ps, 1);
  }

  lemma ChainSurvives(c: Option<Chain>)
    ensures AsChain(ChainValue(c)) == c
  {
    if c.Some? {
      var fs := ChainValue(c).fields;
      GetAt(fs, 0);
      GetAt(fs, 1);
    }
  }

  lemma {:induction false} StateMembers(st: State)
    ensures var v := StateValue(st);
      && Member(v, "dhRatchet") == DhValue(st)
      && Member(v, "sendingChain") == ChainValue(st.sendingChain)
      && Member(v, "receivingChain") == ChainValue(st.receivingChain)
      && Member(v, "currentDHPublicKey") == OptionalBytes(st.currentDHPublicKey)
      && Member(v, "previousChainLength") == VNum(st.previousChainLength)
      && Member(v, "skippedMessageKeys") == VArr(EntryValues(st.skipped))
  {
    var fs := StateValue(st).fields;
    GetAt(fs, 0);
    GetAt(fs, 1);
    GetAt(fs, 2);
    GetAt(fs, 3);
    GetAt(fs, 4);
    GetAt(fs, 5);
  }

  /** fromState undoes getState on a session whose map has one entry a name. */
  lemma FromStateValue(st: State)
    requires UniqueNames(st.skipped)
    ensures FromState(StateValue(st)) == st
  {
    StateMembers(st);
    DhMembers(st);
    ChainSurvives(st.sendingChain);
    ChainSurvives(st.receivingChain);
    EntriesSurvive(st.skipped);
  }

  /** Saving and loading give back the very session, whatever the names and the time written beside it. */
  lemma SaveLoad(localIdentity: string, remoteIdentity: string, createdAt: int, st: State)
    requires Storable(st)
    ensures LoadFile(SessionFile(localIdentity, remoteIdentity, createdAt, st)) == st
  {
    var fs := SessionFields(localIdentity, remoteIdentity, createdAt, StateValue(st));
    GetConverted(fs, "state");
    GetAt(fs, 4);
    StateRestorable(st);
    RoundTrip(StateValue(st));
    FromStateValue(st);
  }
}
