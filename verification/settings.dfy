/**
 * Three on/off preferences (sound, music, vibration), saved to the store as
 * 1/0 after every change and read back as "stored value is 1".
 */
module Settings {
  import opened Prefs
  import Scores

  const SoundKey := "SoundEnabled"
  const MusicKey := "MusicEnabled"
  const VibrationKey := "VibrationEnabled"

  datatype Flags = Flags(sound: bool, music: bool, vibration: bool)

  /** The flags together with the store they are saved to. */
  datatype SettingsManager = SettingsManager(flags: Flags, store: Store)

  const Defaults := Flags(true, true, true)

  function Encode(b: bool): int {
    if b then 1 else 0
  }

  /**
   * Reads the three flags. A missing key reads as on; a stored value is on
   * exactly when it is 1, so any other number reads as off.
   */
  function LoadSettings(store: Store): (f: Flags)
    ensures SoundKey !in store ==> f.sound
    ensures MusicKey !in store ==> f.music
    ensures VibrationKey !in store ==> f.vibration
    ensures SoundKey in store ==> (f.sound <==> store[SoundKey] == 1)
    ensures MusicKey in store ==> (f.music <==> store[MusicKey] == 1)
    ensures VibrationKey in store ==> (f.vibration <==> store[VibrationKey] == 1)
  {
    Flags(GetInt(store, SoundKey, 1) == 1, GetInt(store, MusicKey, 1) == 1, GetInt(store, VibrationKey, 1) == 1)
  }

  /**
   * Every key other than the three flag keys reads the same, under any
   * default, in `after` as in `before`. The store is shared with the score
   * keeper, so this is what keeps the saved scores intact.
   */
  ghost predicate OtherKeysKept(before: Store, after: Store) {
    forall k, d :: k != SoundKey && k != MusicKey && k != VibrationKey ==> GetInt(after, k, d) == GetInt(before, k, d)
  }

  /** Writes all three flags as 1 or 0; other keys keep their values. */
  function SaveSettings(f: Flags, store: Store): (r: Store)
    ensures LoadSettings(r) == f
    ensures OtherKeysKept(store, r)
  {
    SetInt(SetInt(SetInt(store, SoundKey, Encode(f.sound)), MusicKey, Encode(f.music)), VibrationKey, Encode(f.vibration))
  }

  /** Starts from whatever the store holds. */
  function Awake(store: Store): (m: SettingsManager)
    ensures m.store == store && m.flags == LoadSettings(store)
    ensures LoadSettings(m.store) == m.flags
  {
    SettingsManager(LoadSettings(store), store)
  }

  /** Sets the sound flag, leaves the others, and saves. */
  function SetSoundEnabled(m: SettingsManager, enabled: bool): (r: SettingsManager)
    ensures r.flags.sound == enabled
    ensures r.flags.music == m.flags.music && r.flags.vibration == m.flags.vibration
    ensures LoadSettings(r.store) == r.flags && OtherKeysKept(m.store, r.store)
  {
    var f := m.flags.(sound := enabled);
    SettingsManager(f, SaveSettings(f, m.store))
  }

  /** Sets the music flag, leaves the others, and saves. */
  function SetMusicEnabled(m: SettingsManager, enabled: bool): (r: SettingsManager)
    ensures r.flags.music == enabled
    ensures r.flags.sound == m.flags.sound && r.flags.vibration == m.flags.vibration
    ensures LoadSettings(r.store) == r.flags && OtherKeysKept(m.store, r.store)
  {
    var f := m.flags.(music := enabled);
    SettingsManager(f, SaveSettings(f, m.store))
  }

  /** Sets the vibration flag, leaves the others, and saves. */
  function SetVibrationEnabled(m: SettingsManager, enabled: bool): (r: SettingsManager)
    ensures r.flags.vibration == enabled
    ensures r.flags.sound == m.flags.sound && r.flags.music == m.flags.music
    ensures LoadSettings(r.store) == r.flags && OtherKeysKept(m.store, r.store)
  {
    var f := m.flags.(vibration := enabled);
    SettingsManager(f, SaveSettings(f, m.store))
  }

  function ToggleSound(m: SettingsManager): (r: SettingsManager)
    ensures r.flags.sound == !m.flags.sound
    ensures r.flags.music == m.flags.music && r.flags.vibration == m.flags.vibration
    ensures LoadSettings(r.store) == r.flags && OtherKeysKept(m.store, r.store)
  {
    SetSoundEnabled(m, !m.flags.sound)
  }

  function ToggleMusic(m: SettingsManager): (r: SettingsManager)
    ensures r.flags.music == !m.flags.music
    ensures r.flags.sound == m.flags.sound && r.flags.vibration == m.flags.vibration
    ensures LoadSettings(r.store) == r.flags && OtherKeysKept(m.store, r.store)
  {
    SetMusicEnabled(m, !m.flags.music)
  }

  function ToggleVibration(m: SettingsManager): (r: SettingsManager)
    ensures r.flags.vibration == !m.flags.vibration
    ensures r.flags.sound == m.flags.sound && r.flags.music == m.flags.music
    ensures LoadSettings(r.store) == r.flags && OtherKeysKept(m.store, r.store)
  {
    SetVibrationEnabled(m, !m.flags.vibration)
  }

  /** Toggling a flag twice gives back the flags it started with. */
  lemma ToggleTwiceRestores(m: SettingsManager)
    ensures ToggleSound(ToggleSound(m)).flags == m.flags
    ensures ToggleMusic(ToggleMusic(m)).flags == m.flags
    ensures ToggleVibration(ToggleVibration(m)).flags == m.flags
  {
  }

  /** Turns every flag on and saves. */
  function ResetToDefaults(m: SettingsManager): (r: SettingsManager)
    ensures r.flags.sound && r.flags.music && r.flags.vibration
    ensures LoadSettings(r.store) == r.flags && OtherKeysKept(m.store, r.store)
  {
    SettingsManager(Defaults, SaveSettings(Defaults, m.store))
  }

  /**
   * The settings and the score keeper share one store under different keys,
   * so saving the flags leaves every saved best score as it was.
   */
  lemma SavingSettingsKeepsScores(f: Flags, store: Store)
    ensures forall d :: GetInt(SaveSettings(f, store), Scores.GetHighScoreKey(d), 0) == GetInt(store, Scores.GetHighScoreKey(d), 0)
    ensures GetInt(SaveSettings(f, store), Scores.AllTimeHighKey, 0) == GetInt(store, Scores.AllTimeHighKey, 0)
  {
  }

  /** A store that does not know the keys yields all flags on. */
  lemma FreshStoreLoadsDefaults()
    ensures LoadSettings(map[]) == Defaults
  {
  }
}
