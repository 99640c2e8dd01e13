// UIImagePickerController.CameraFlashMode extension: the flash button's cycle
// and the SF Symbol shown for each mode.
module Flash {

  /** The three modes UIKit defines, and any value a later SDK may add. */
  datatype FlashMode = Auto | On | Off | Unknown(raw: int)

  /** `cycle()`: auto, then on, then off, then auto again. */
  function Cycle(m: FlashMode): FlashMode {
    match m
    case Auto => On
    case On => Off
    case Off => Auto
    case Unknown(_) => m
  }

  /** `systemImage`: the symbol name for a mode. */
  function SystemImage(m: FlashMode): string {
    match m
    case Auto => "bolt.badge.a.fill"
    case On => "bolt.circle.fill"
    case Off => "bolt.slash.circle.fill"
    case Unknown(_) => "bolt.badge.a.fill"
  }

  /** The symbol the camera overlay's flash button starts with. */
  const InitialFlashIcon: string := "bolt.slash.circle.fill"

  /** Three presses bring every mode back; a mode UIKit does not know of is never
      changed; from any known mode the presses visit all three. */
  lemma CycleHasPeriodThree(m: FlashMode)
    ensures Cycle(Cycle(Cycle(m))) == m
    ensures m.Unknown? ==> Cycle(m) == m
    ensures !m.Unknown? ==> {m, Cycle(m), Cycle(Cycle(m))} == {Auto, On, Off}
  {
  }

  /** The three known modes show three different symbols, and the flash
      button's first symbol is the one for off, the mode the camera starts in. */
  lemma IconsTellModesApart(m1: FlashMode, m2: FlashMode)
    requires !m1.Unknown? && !m2.Unknown? && m1 != m2
    ensures SystemImage(m1) != SystemImage(m2)
    ensures SystemImage(Off) == InitialFlashIcon
  {
  }
}
