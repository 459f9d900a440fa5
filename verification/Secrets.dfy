/** Where secrets live: one keychain entry (or one file) holding every slot, a
    marker file naming the identity, and a file saying a backup was confirmed.

    Every read and write meets a fate: it works, it fails, the process dies in
    the middle, or the keychain says yes and keeps something else. Operations
    are written as functions over the world those files make up; `SecretStore`
    is the object that changes it in place.
 */
module Secrets {
  import opened Text

  const IDENTITY_SLOT := "identity"

  type Slots = map<string, string>

  /** What the keychain entry or secrets file holds. */
  datatype Entry = Absent | Garbled | Holding(slots: Slots)

  datatype Backend = Keychain | File

  /** `wrote`: how many characters of a marker reached the disk, if the file was opened at all. */
  datatype Fate = Works | Fails(wrote: Option<nat>) | Dies(wrote: Option<nat>) | Keeps(entry: Entry)

  datatype Error = Locked | Io | Corrupt | Keyring
                 | BadKey | NoBackupYet | NoIdentityYet | EmptyToken | EmptyLabel | Office | StaleHostToken

  /** How an operation ended; `Crashed` is the process gone, with nothing returned to anybody. */
  datatype Outcome<+T> = Ok(value: T) | Err(error: Error) | Crashed

  datatype World = World(entry: Entry, marker: Option<string>, confirmed: bool, script: seq<Fate>)

  // --- single reads and writes ------------------------------------------------

  function Fated(w: World): Fate {
    if w.script == [] then Works else w.script[0]
  }

  function Moved(w: World): World {
    if w.script == [] then w else w.(script := w.script[1..])
  }

  function Prefix(text: string, n: nat): string {
    if n <= |text| then text[..n] else text
  }

  /** The marker as it is read: an empty file names nobody. */
  function Marker(w: World): Option<string> {
    if w.marker == Some("") then None else w.marker
  }

  function ReadRaw(w: World, backend: Backend): (World, Outcome<Entry>) {
    (Moved(w),
     match Fated(w)
     case Works => Ok(w.entry)
     case Keeps(_) => Ok(w.entry)
     case Fails(_) => Err(if backend.Keychain? then Keyring else Io)
     case Dies(_) => Crashed)
  }

  /** Set the entry: atomic on both backends, but the answer is not proof of what was kept. */
  function WriteRaw(w: World, backend: Backend, slots: Slots): (World, Outcome<()>) {
    match Fated(w)
    case Works => (Moved(w).(entry := Holding(slots)), Ok(()))
    case Keeps(kept) => (Moved(w).(entry := kept), Ok(()))
    case Fails(_) => (Moved(w), Err(if backend.Keychain? then Keyring else Io))
    case Dies(_) => (Moved(w), Crashed)
  }

  function CutShort(w: World, npub: string, wrote: Option<nat>): Option<string> {
    if wrote.Some? then Some(Prefix(npub, wrote.value)) else w.marker
  }

  /** Truncate, write, sync: cut short, some first characters are there. */
  function WriteMarker(w: World, npub: string): (World, Outcome<()>) {
    match Fated(w)
    case Works => (Moved(w).(marker := Some(npub)), Ok(()))
    case Keeps(_) => (Moved(w).(marker := Some(npub)), Ok(()))
    case Fails(wrote) => (Moved(w).(marker := CutShort(w, npub, wrote)), Err(Io))
    case Dies(wrote) => (Moved(w).(marker := CutShort(w, npub, wrote)), Crashed)
  }

  function RemoveMarker(w: World): (World, Outcome<()>) {
    match Fated(w)
    case Fails(_) => (Moved(w), if w.marker.None? then Ok(()) else Err(Io))
    case Dies(_) => (Moved(w), Crashed)
    case _ => (Moved(w).(marker := None), Ok(()))
  }

  function RemoveEntry(w: World): (World, Outcome<()>) {
    match Fated(w)
    case Fails(_) => (Moved(w), Err(Io))
    case Dies(_) => (Moved(w), Crashed)
    case _ => (Moved(w).(entry := Absent), Ok(()))
  }

  /** The confirmation is a file's being there: opening it to write is enough, whatever comes of
      the write. Removing it is one step. */
  function SetConfirmed(w: World, to: bool): (World, Outcome<()>) {
    match Fated(w)
    case Fails(wrote) =>
      (Moved(w).(confirmed := w.confirmed || (to && wrote.Some?)), if w.confirmed == to == false then Ok(())
          else Err(Io))
    case Dies(wrote) => (Moved(w).(confirmed := w.confirmed || (to && wrote.Some?)), Crashed)
    case _ => (Moved(w).(confirmed := to), Ok(()))
  }

  // --- the store's own operations ---------------------------------------------

  function Load(w: World, backend: Backend): (World, Outcome<Slots>) {
    var (w1, raw) := ReadRaw(w, backend);
    match raw
    case Ok(Holding(slots)) => (w1, Ok(slots))
    case Ok(Garbled) => (w1, Err(Corrupt))
    case Ok(Absent) => (w1, if Marker(w1).Some? then Err(Locked) else Ok(map[]))
    case Err(Keyring) => (w1, Err(if Marker(w1).Some? then Locked else Keyring))
    case Err(e) => (w1, Err(e))
    case Crashed => (w1, Crashed)
  }

  function SlotOf(slots: Slots, name: string): Option<string> {
    if name in slots then Some(slots[name]) else None
  }

  /** Does what was read back hold the identity that was written? */
  function ReadBack(raw: Outcome<Entry>, slots: Slots): Outcome<()> {
    match raw
    case Ok(Absent) => Err(Keyring)
    case Ok(Garbled) => Err(Corrupt)
    case Ok(Holding(back)) => if SlotOf(back, IDENTITY_SLOT) != SlotOf(slots, IDENTITY_SLOT) then Err(Keyring)
        else Ok(())
    case Err(e) => Err(e)
    case Crashed => Crashed
  }

  /** Secret, read-back, marker: in that order. */
  function Store(w: World, backend: Backend, slots: Slots, npub: string): (World, Outcome<()>) {
    var (w1, wrote) := WriteRaw(w, backend, slots);
    if !wrote.Ok? then (w1, wrote)
    else
      var (w2, raw) := ReadRaw(w1, backend);
      var back := ReadBack(raw, slots);
      if !back.Ok? then (w2, back) else WriteMarker(w2, npub)
  }

  function EnsureMarker(w: World, npub: string): (World, Outcome<()>) {
    if Marker(w) == Some(npub) then (w, Ok(())) else WriteMarker(w, npub)
  }

  /** Marker, secret, confirmation: the reverse of `Store`; only the first may refuse. */
  function Wipe(w: World): (World, Outcome<()>) {
    var (w1, gone) := RemoveMarker(w);
    if !gone.Ok? then (w1, gone)
    else
      var (w2, dropped) := RemoveEntry(w1);
      if dropped.Crashed? then (w2, Crashed)
      else
        var (w3, forgot) := SetConfirmed(w2, false);
        (w3, if forgot.Crashed? then Crashed else Ok(()))
  }

  // --- the object -------------------------------------------------------------

  class SecretStore {
    const backend: Backend
    var entry: Entry
    var marker: Option<string>
    var confirmed: bool
    /** The fates still to come. */
    var script: seq<Fate>

    constructor (backend: Backend, entry: Entry, marker: Option<string>, confirmed: bool)
      ensures this.backend == backend && Here() == World(entry, marker, confirmed, [])
    {
      this.backend, this.entry, this.marker, this.confirmed, this.script := backend, entry, marker, confirmed, [];
    }

    function Here(): World
      reads this
    {
      World(entry, marker, confirmed, script)
    }

    method NextFate() returns (f: Fate)
      modifies this`script
      ensures f == old(Fated(Here())) && Here() == old(Moved(Here()))
    {
      if script == [] {
        return Works;
      }
      f, script := script[0], script[1..];
    }

    method ReadRawEntry() returns (r: Outcome<Entry>)
      modifies this`script
      ensures (Here(), r) == ReadRaw(old(Here()), backend)
    {
      var f := NextFate();
      match f
      case Fails(_) => r := Err(if backend.Keychain? then Keyring else Io);
      case Dies(_) => r := Crashed;
      case _ => r := Ok(entry);
    }

    method WriteRawEntry(slots: Slots) returns (r: Outcome<()>)
      modifies this`script, this`entry
      ensures (Here(), r) == WriteRaw(old(Here()), backend, slots)
    {
      var f := NextFate();
      match f
      case Works => entry, r := Holding(slots), Ok(());
      case Keeps(kept) => entry, r := kept, Ok(());
      case Fails(_) => r := Err(if backend.Keychain? then Keyring else Io);
      case Dies(_) => r := Crashed;
    }

    method WriteMarkerFile(npub: string) returns (r: Outcome<()>)
      modifies this`script, this`marker
      ensures (Here(), r) == WriteMarker(old(Here()), npub)
    {
      var f := NextFate();
      if f.Works? || f.Keeps? {
        marker := Some(npub);
        return Ok(());
      }
      if f.wrote.Some? {
        marker := Some("");
        marker := Some(Prefix(npub, f.wrote.value));
      }
      r := if f.Dies? then Crashed else Err(Io);
    }

    method LoadSlots() returns (r: Outcome<Slots>)
      modifies this`script
      ensures (Here(), r) == Load(old(Here()), backend)
    {
      var raw := ReadRawEntry();
      match raw
      case Ok(Holding(slots)) => r := Ok(slots);
      case Ok(Garbled) => r := Err(Corrupt);
      case Ok(Absent) => r := if Marker(Here()).Some? then Err(Locked) else Ok(map[]);
      case Err(e) => r := Err(if e.Keyring? && Marker(Here()).Some? then Locked else e);
      case Crashed => r := Crashed;
    }

    /** Store the slots, prove they landed, then record the marker. */
    method StoreSlots(slots: Slots, npub: string) returns (r: Outcome<()>)
      modifies this
      ensures (Here(), r) == Store(old(Here()), backend, slots, npub)
    {
      r := WriteRawEntry(slots);
      if !r.Ok? {
        return;
      }
      var raw := ReadRawEntry();
      r := ReadBack(raw, slots);
      if !r.Ok? {
        return;
      }
      r := WriteMarkerFile(npub);
    }

    method HealMarker(npub: string) returns (r: Outcome<()>)
      modifies this
      ensures (Here(), r) == EnsureMarker(old(Here()), npub)
    {
      if Marker(Here()) == Some(npub) {
        return Ok(());
      }
      r := WriteMarkerFile(npub);
    }

    method SetConfirmation(to: bool) returns (r: Outcome<()>)
      modifies this`script, this`confirmed
      ensures (Here(), r) == SetConfirmed(old(Here()), to)
    {
      var f := NextFate();
      if f.Works? || f.Keeps? {
        confirmed := to;
        return Ok(());
      }
      r := if f.Dies? then Crashed else if !confirmed && !to then Ok(()) else Err(Io);
      if to && f.wrote.Some? {
        confirmed := true;
      }
    }

    /** Remove everything, marker first, and stop if the marker will not go. */
    method WipeAll() returns (r: Outcome<()>)
      modifies this
      ensures (Here(), r) == Wipe(old(Here()))
    {
      var f := NextFate();
      if f.Dies? {
        return Crashed;
      }
      if f.Fails? && marker.Some? {
        return Err(Io);
      }
      marker := None;
      f := NextFate();
      if f.Dies? {
        return Crashed;
      }
      if !f.Fails? {
        entry := Absent;
      }
      var forgot := SetConfirmation(false);
      r := if forgot.Crashed? then Crashed else Ok(());
    }
  }
}
