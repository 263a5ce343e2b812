/** What one session of the stack holds over the contents below it. */
module SessionLevel {
  import opened Options
  import opened ByteKeys
  import opened UndoLog

  datatype Slot = Slot(deleted: bool, updated: bool, version: nat, value: Bytes)

  type Level = map<Bytes, Slot>

  /** A value brought in from below. */
  function Clean(v: Bytes): Slot {
    Slot(false, false, 0, v)
  }

  /** What a session shows for `k`; an empty value counts as none. */
  function Shown(m: Store, level: Level, k: Bytes): Option<Bytes> {
    if k in level && level[k].deleted then None
    else if k in level && level[k].value != [] then Some(level[k].value)
    else Find(m, k)
  }

  ghost function Overlay(m: Store, level: Level): Store {
    map k | k in m.Keys + level.Keys && Shown(m, level, k).Some? :: Shown(m, level, k).value
  }

  lemma OverlayFind(m: Store, level: Level, k: Bytes)
    ensures Find(Overlay(m, level), k) == Shown(m, level, k)
  {
  }

  lemma OverlayIs(m: Store, level: Level, view: Store)
    requires forall k :: Shown(m, level, k) == Find(view, k)
    ensures Overlay(m, level) == view
  {
    hide Shown, Overlay;
    forall k ensures Find(Overlay(m, level), k) == Find(view, k) {
      OverlayFind(m, level, k);
    }
    SameStore(Overlay(m, level), view);
  }

  predicate SlotOk(m: Store, k: Bytes, s: Slot) {
    k != [] && (!s.deleted ==> s.value != [] && (s.updated || Find(m, k) == Some(s.value)))
  }

  /** Entries that are neither deleted nor updated repeat what is below. */
  ghost predicate LevelOk(m: Store, level: Level) {
    forall k :: k in level ==> SlotOk(m, k, level[k])
  }

  /** Neither empty keys nor empty values. */
  ghost predicate Plain(m: Store) {
    forall k :: k in m ==> k != [] && m[k] != []
  }

  lemma OverlayPlain(m: Store, level: Level)
    requires Plain(m) && LevelOk(m, level)
    ensures Plain(Overlay(m, level))
  {
  }
}
