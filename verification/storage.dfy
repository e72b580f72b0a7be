/** The browser's key-value store as one map from key to the decoded value
    stored there. JSON encoding is idealised: a blob decodes to what was
    written, and `Unparseable` stands for text that does not parse. */
module Storage {
  import opened Wrappers
  import opened Entities

  /** Key of the snapshot of the whole application state. */
  const SnapshotKey := "dynasty-depthchart.v1"

  /** Key of the edit ledger. */
  const EditsKey := "ddc.edits.v1"

  datatype Blob =
    | EditsBlob(ledger: Ledger)
    | StateBlob(state: AppState)
    | Unparseable

  type Store = map<string, Blob>

  /** Reads the ledger; an absent or corrupt blob reads as the empty ledger. */
  function LoadEdits(st: Store): (l: Ledger)
    ensures EditsKey in st && st[EditsKey].EditsBlob? ==> l == st[EditsKey].ledger
    ensures !(EditsKey in st && st[EditsKey].EditsBlob?) ==> l == map[]
  {
    if EditsKey in st && st[EditsKey].EditsBlob? then st[EditsKey].ledger else map[]
  }

  function SaveEdits(st: Store, l: Ledger): (r: Store)
    ensures LoadEdits(r) == l
    ensures forall k :: k != EditsKey ==> (k in r <==> k in st) && (k in st ==> r[k] == st[k])
  {
    st[EditsKey := EditsBlob(l)]
  }

  /** Reads the snapshot; absent or unparseable text reads as no state. */
  function LoadAppState(st: Store): (s: Option<AppState>)
    ensures s.Some? <==> SnapshotKey in st && st[SnapshotKey].StateBlob?
    ensures s.Some? ==> s.value == st[SnapshotKey].state
  {
    if SnapshotKey in st && st[SnapshotKey].StateBlob? then Some(st[SnapshotKey].state) else None
  }

  function SaveAppState(st: Store, s: AppState): (r: Store)
    ensures LoadAppState(r) == Some(s)
    ensures forall k :: k != SnapshotKey ==> (k in r <==> k in st) && (k in st ==> r[k] == st[k])
  {
    st[SnapshotKey := StateBlob(s)]
  }

  /** Removes the snapshot and nothing else. */
  function ClearAppState(st: Store): (r: Store)
    ensures LoadAppState(r) == None
    ensures forall k :: k != SnapshotKey ==> (k in r <==> k in st) && (k in st ==> r[k] == st[k])
  {
    st - {SnapshotKey}
  }

  /** The two stores have different keys, so clearing the snapshot (as a
      disconnect does) leaves the ledger as it was, and writing the ledger
      leaves the snapshot as it was. */
  lemma StoresIndependent(st: Store, l: Ledger)
    ensures LoadEdits(ClearAppState(st)) == LoadEdits(st)
    ensures LoadAppState(SaveEdits(st, l)) == LoadAppState(st)
  {
    assert SnapshotKey != EditsKey by {
      assert SnapshotKey[1] != EditsKey[1];
    }
  }
}
