/** The settings dialog: six pieces of local form state, Reset to the
    defaults, Save (which reports a snapshot and closes), Escape, and the
    density preview's padding class.

    `isOpen` and `darkMode` are props owned by the parent; closing is
    modelled as clearing `isOpen`. Whether the parent supplied an `onSave`
    handler is the boolean `hasSaveHandler`. */
module Settings {
  import opened Common

  /** The dialog's own state. `density` is kept as text: the radio buttons
      offer three values but the handler casts whatever the input reports. */
  datatype Local = Local(
    matchSystem: bool,
    density: string,
    soundEnabled: bool,
    volume: int,
    autoDismiss: bool,
    refreshInterval: string)

  /** The record handed to `onSave`. */
  datatype SettingsData = SettingsData(
    darkMode: bool,
    matchSystem: bool,
    density: string,
    soundEnabled: bool,
    volume: int,
    autoDismiss: bool,
    refreshInterval: string)

  datatype Modal = Modal(isOpen: bool, darkMode: bool, local: Local)

  /** The dialog as first rendered: the two props as given and the initial
      value of each piece of local state. */
  function Mount(isOpen: bool, darkMode: bool): (m: Modal)
    ensures m.isOpen == isOpen && m.darkMode == darkMode
  {
    Modal(isOpen, darkMode, Local(false, "comfortable", true, 70, true, "5s"))
  }

  /** The form controls: each writes one field of the local state. */
  datatype Edit =
    | SetMatchSystem(on: bool)
    | SetDensity(name: string)
    | SetSoundEnabled(on: bool)
    | SetVolume(level: int)
    | SetAutoDismiss(on: bool)
    | SetRefreshInterval(choice: string)

  function Apply(m: Modal, e: Edit): (r: Modal)
    ensures r.isOpen == m.isOpen && r.darkMode == m.darkMode
    ensures e.SetMatchSystem? ==> r.local == m.local.(matchSystem := e.on)
    ensures e.SetDensity? ==> r.local == m.local.(density := e.name)
    ensures e.SetSoundEnabled? ==> r.local == m.local.(soundEnabled := e.on)
    ensures e.SetVolume? ==> r.local == m.local.(volume := e.level)
    ensures e.SetAutoDismiss? ==> r.local == m.local.(autoDismiss := e.on)
    ensures e.SetRefreshInterval? ==> r.local == m.local.(refreshInterval := e.choice)
  {
    var l := m.local;
    m.(local := match e
      case SetMatchSystem(b) => l.(matchSystem := b)
      case SetDensity(d) => l.(density := d)
      case SetSoundEnabled(b) => l.(soundEnabled := b)
      case SetVolume(v) => l.(volume := v)
      case SetAutoDismiss(b) => l.(autoDismiss := b)
      case SetRefreshInterval(r) => l.(refreshInterval := r))
  }

  /** Which of the six fields an edit writes. */
  function FieldOf(e: Edit): nat
  {
    match e
    case SetMatchSystem(_) => 0
    case SetDensity(_) => 1
    case SetSoundEnabled(_) => 2
    case SetVolume(_) => 3
    case SetAutoDismiss(_) => 4
    case SetRefreshInterval(_) => 5
  }

  /** Repeating an edit changes nothing more. */
  lemma EditIdempotent(m: Modal, e: Edit)
    ensures Apply(Apply(m, e), e) == Apply(m, e)
  {
  }

  /** Of two edits of the same field, the later one wins. */
  lemma LaterEditWins(m: Modal, e1: Edit, e2: Edit)
    requires FieldOf(e1) == FieldOf(e2)
    ensures Apply(Apply(m, e1), e2) == Apply(m, e2)
  {
  }

  /** Edits of different fields can be made in either order. */
  lemma EditsCommute(m: Modal, e1: Edit, e2: Edit)
    requires FieldOf(e1) != FieldOf(e2)
    ensures Apply(Apply(m, e1), e2) == Apply(Apply(m, e2), e1)
  {
  }

  function ApplyAll(m: Modal, edits: seq<Edit>): (r: Modal)
    ensures r.isOpen == m.isOpen && r.darkMode == m.darkMode
    decreases |edits|
  {
    if |edits| == 0 then m else ApplyAll(Apply(m, edits[0]), edits[1..])
  }

  /** `handleReset`: every local field back to the value it started with;
      the dark-mode prop and the open state are untouched. */
  function Reset(m: Modal): (r: Modal)
    ensures r.local == Mount(m.isOpen, m.darkMode).local
    ensures r.isOpen == m.isOpen && r.darkMode == m.darkMode
  {
    m.(local := Local(false, "comfortable", true, 70, true, "5s"))
  }

  /** Reset is idempotent, and erases any edits made before it. */
  lemma ResetForgetsEdits(m: Modal, edits: seq<Edit>)
    ensures Reset(Reset(m)) == Reset(m)
    ensures Reset(ApplyAll(m, edits)) == Reset(m)
  {
  }

  /** The snapshot `handleSave` builds: the local fields plus the prop. */
  function Snapshot(m: Modal): (d: SettingsData)
    ensures d.darkMode == m.darkMode
  {
    var l := m.local;
    SettingsData(m.darkMode, l.matchSystem, l.density, l.soundEnabled, l.volume, l.autoDismiss, l.refreshInterval)
  }

  /** The local half of a saved record. */
  function LocalOf(d: SettingsData): Local
  {
    Local(d.matchSystem, d.density, d.soundEnabled, d.volume, d.autoDismiss, d.refreshInterval)
  }

  /** `handleSave`: report the snapshot to the handler if there is one, then
      close. The button exists only while the dialog is open. */
  function Save(m: Modal, hasSaveHandler: bool): (r: (Option<SettingsData>, Modal))
    ensures !m.isOpen ==> r == (None, m)
    ensures m.isOpen ==> !r.1.isOpen && r.1.local == m.local && r.1.darkMode == m.darkMode
    ensures r.0.Some? <==> m.isOpen && hasSaveHandler
    ensures r.0.Some? ==> LocalOf(r.0.value) == m.local && r.0.value.darkMode == m.darkMode
  {
    if !m.isOpen then (None, m)
    else ((if hasSaveHandler then Some(Snapshot(m)) else None), m.(isOpen := false))
  }

  /** Saving after a reset reports exactly the defaults. */
  lemma SaveAfterReset(m: Modal)
    requires m.isOpen
    ensures Save(Reset(m), true).0 == Some(SettingsData(m.darkMode, false, "comfortable", true, 70, true, "5s"))
  {
  }

  /** The document keydown handler: Escape closes an open dialog. */
  function KeyDown(m: Modal, key: string): (r: Modal)
    ensures r.local == m.local && r.darkMode == m.darkMode
    ensures r.isOpen <==> m.isOpen && key != "Escape"
  {
    if key == "Escape" && m.isOpen then m.(isOpen := false) else m
  }

  /** The backdrop and the header's close button call `onClose` directly. */
  function Dismiss(m: Modal): (r: Modal)
    ensures !r.isOpen && r.local == m.local && r.darkMode == m.darkMode
  {
    m.(isOpen := false)
  }

  /** `getDensityPadding`. */
  function DensityPadding(density: string): (cls: string)
    ensures cls == "p-3" || cls == "p-4" || cls == "p-6"
  {
    match density
    case "compact" => "p-3"
    case "comfortable" => "p-4"
    case "spacious" => "p-6"
    case _ => "p-4"
  }

  /** The three offered densities get three different paddings, and any
      other value looks like the initial density. */
  lemma DensityPaddingDistinguishes(d: string)
    ensures DensityPadding(d) == "p-3" <==> d == "compact"
    ensures DensityPadding(d) == "p-6" <==> d == "spacious"
    ensures DensityPadding(d) == "p-4" <==> d != "compact" && d != "spacious"
    ensures DensityPadding(d) == DensityPadding(Mount(false, false).local.density) <==> d != "compact" && d != "spacious"
  {
  }

  /** What is drawn: nothing while closed, otherwise the dialog whose
      preview card uses the density padding. */
  function Render(m: Modal): (view: Option<string>)
    ensures view.Some? <==> m.isOpen
    ensures view.Some? ==> view.value == DensityPadding(m.local.density)
  {
    if m.isOpen then Some(DensityPadding(m.local.density)) else None
  }
}
