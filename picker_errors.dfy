// ImagePickerError: the failures the camera/editor flow reports, with the
// localisation key each one is looked up under.
module PickerErrors {
  import opened Wrappers

  datatype ImagePickerError = NoSelf | Cancelled | NoImage

  /** The String raw value of each case: the case name. */
  function RawValue(e: ImagePickerError): string {
    match e
    case NoSelf => "noSelf"
    case Cancelled => "cancelled"
    case NoImage => "noImage"
  }

  const KeyPrefix: string := "ImagePickerError_"

  /** `localizedKey`: the raw value after a fixed prefix. */
  function LocalizedKey(e: ImagePickerError): (k: string)
    ensures |k| > |KeyPrefix| && k[..|KeyPrefix|] == KeyPrefix && k[|KeyPrefix|..] == RawValue(e)
  {
    KeyPrefix + RawValue(e)
  }

  /** Different errors are looked up under different keys. */
  lemma LocalizedKeysDistinct(e1: ImagePickerError, e2: ImagePickerError)
    requires e1 != e2
    ensures LocalizedKey(e1) != LocalizedKey(e2)
  {
    var k1, k2 := LocalizedKey(e1), LocalizedKey(e2);
    assert k1[|KeyPrefix|..] == RawValue(e1);
    assert k2[|KeyPrefix|..] == RawValue(e2);
  }

  /** `errorDescription`: nothing for a cancellation, otherwise the localised
      text of the key. `localized` stands for the string-table lookup. */
  function ErrorDescription(e: ImagePickerError, localized: string -> string): (d: Option<string>)
    ensures d.None? <==> e == Cancelled
    ensures d.Some? ==> d.value == localized(LocalizedKey(e))
  {
    match e
    case NoSelf | NoImage => Some(localized(LocalizedKey(e)))
    case Cancelled => None
  }
}
