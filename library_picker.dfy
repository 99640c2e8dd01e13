// PHImagePicker: the photo-library picker view, its builder methods, its
// coordinator's authorisation check and its handling of the picked results.
module LibraryPicker {
  import opened Wrappers
  import opened Geometry
  import opened PHImages
  import opened FetchProcessing

  /** PHAuthorizationStatus, with room for cases added after this code was written. */
  datatype AuthorizationStatus = NotDetermined | Restricted | Denied | Authorized | Limited | Unknown(raw: int)

  /** `canAccessPhotos`. */
  predicate CanAccessPhotos(s: AuthorizationStatus) {
    match s
    case NotDetermined => false
    case Restricted => false
    case Denied => false
    case Authorized => true
    case Limited => true
    case Unknown(_) => false
  }

  /** Only full and limited access count as access; every other status,
      including the ones this code does not know of, does not. */
  lemma CanAccessPhotosExactly(s: AuthorizationStatus)
    ensures CanAccessPhotos(s) <==> s == Authorized || s == Limited
  {
  }

  /** A client closure, known only by an identifying token. */
  type Handler = nat

  /** The picker's own settings (the bindings live with the coordinator). */
  datatype Picker = Picker(selectionLimit: int, targetSize: Size, authorizationResponse: Option<Handler>)

  const DefaultSelectionLimit: int := 5

  /** `init(_:appeared:selectedImages:)`, with the screen size the target size defaults to. */
  function NewPicker(screenSize: Size): (p: Picker)
    ensures p.selectionLimit == DefaultSelectionLimit
    ensures p.targetSize == screenSize
    ensures p.authorizationResponse.None?
  {
    Picker(DefaultSelectionLimit, screenSize, None)
  }

  /** `selectionLimit(_:)`: a copy with only the selection limit changed. */
  function WithSelectionLimit(p: Picker, n: int): (r: Picker)
    ensures r.selectionLimit == n
    ensures r.targetSize == p.targetSize && r.authorizationResponse == p.authorizationResponse
  {
    p.(selectionLimit := n)
  }

  /** `targetImageSize(_:)`: a copy with only the target size changed. */
  function WithTargetSize(p: Picker, size: Size): (r: Picker)
    ensures r.targetSize == size
    ensures r.selectionLimit == p.selectionLimit && r.authorizationResponse == p.authorizationResponse
  {
    p.(targetSize := size)
  }

  /** `authorizationResponse(_:)`: a copy with only the response handler changed. */
  function WithAuthorizationResponse(p: Picker, h: Handler): (r: Picker)
    ensures r.authorizationResponse == Some(h)
    ensures r.selectionLimit == p.selectionLimit && r.targetSize == p.targetSize
  {
    p.(authorizationResponse := Some(h))
  }

  /** The builders touch disjoint fields, so they commute, and a later call of
      the same builder overrides an earlier one. */
  lemma BuildersCommute(p: Picker, n: int, size: Size, h: Handler, m: int)
    ensures WithTargetSize(WithSelectionLimit(p, n), size) == WithSelectionLimit(WithTargetSize(p, size), n)
    ensures WithAuthorizationResponse(WithSelectionLimit(p, n), h) == WithSelectionLimit(WithAuthorizationResponse(p, h), n)
    ensures WithSelectionLimit(WithSelectionLimit(p, n), m) == WithSelectionLimit(p, m)
  {
  }

  /** The `selectedImages` and `active` bindings shared with the presenting view. */
  class LibraryBindings<T> {
    var selectedImages: Option<PickerResult>
    var active: Option<T>

    constructor (selectedImages: Option<PickerResult>, active: Option<T>)
      ensures this.selectedImages == selectedImages && this.active == active
    {
      this.selectedImages := selectedImages;
      this.active := active;
    }
  }

  /** One `PHPickerResult`: its asset identifier, when the picker gives one. */
  datatype PickedItem = PickedItem(assetIdentifier: Option<string>)

  /** `compactMap { $0.assetIdentifier }`. */
  function Identifiers(results: seq<PickedItem>): (ids: seq<string>)
    ensures |ids| <= |results|
    ensures forall x :: x in ids <==> PickedItem(Some(x)) in results
  {
    if results == [] then []
    else
      var rest := Identifiers(results[1..]);
      assert forall r :: r in results <==> r == results[0] || r in results[1..];
      if results[0].assetIdentifier.Some? then [results[0].assetIdentifier.value] + rest else rest
  }

  /** `fetchAssets(withLocalIdentifiers:)` against a library keyed by local
      identifier; identifiers the library does not know are skipped. */
  function FetchAssets(ids: seq<string>, library: map<string, Asset>): (assets: seq<Asset>)
    ensures |assets| <= |ids|
    ensures (forall x :: x in ids ==> x !in library) ==> assets == []
    ensures forall a :: a in assets <==> exists x :: x in ids && x in library && library[x] == a
  {
    if ids == [] then []
    else
      var rest := FetchAssets(ids[1..], library);
      assert forall x :: x in ids <==> x == ids[0] || x in ids[1..];
      if ids[0] in library then [library[ids[0]]] + rest else rest
  }

  class Coordinator<T> {
    const picker: Picker
    const bindings: LibraryBindings<T>
    /** The picker configuration's selection limit (filter: images only). */
    const configurationLimit: int
    /** True while the library is still to answer an authorisation request. */
    var awaitingAuthorization: bool
    /** The statuses handed to the client's authorisation-response closure. */
    var responses: seq<AuthorizationStatus>

    /** `init(parent:)`, with the library's current status. A known status is
        checked at once; notDetermined asks the library and waits. */
    constructor (picker: Picker, bindings: LibraryBindings<T>, status: AuthorizationStatus)
      modifies bindings`active
      ensures this.picker == picker && this.bindings == bindings
      ensures configurationLimit == picker.selectionLimit
      ensures awaitingAuthorization <==> status == NotDetermined
      ensures status == NotDetermined ==> responses == [] && bindings.active == old(bindings.active)
      ensures status != NotDetermined ==>
                responses == (if picker.authorizationResponse.Some? then [status] else [])
      ensures status != NotDetermined ==>
                bindings.active == (if CanAccessPhotos(status) then old(bindings.active) else None)
    {
      this.picker := picker;
      this.bindings := bindings;
      configurationLimit := picker.selectionLimit;
      awaitingAuthorization := status == NotDetermined;
      responses := [];
      new;
      if status != NotDetermined {
        CheckAccess(status);
      }
    }

    /** Report the status to the client and dismiss the picker without access. */
    method CheckAccess(status: AuthorizationStatus)
      modifies this`responses, bindings`active
      ensures responses == old(responses) + (if picker.authorizationResponse.Some? then [status] else [])
      ensures bindings.active == (if CanAccessPhotos(status) then old(bindings.active) else None)
    {
      if picker.authorizationResponse.Some? {
        responses := responses + [status];
      }
      if !CanAccessPhotos(status) {
        bindings.active := None;
      }
    }

    /** The `requestAuthorization` callback: the deferred check, on the answer. */
    method AuthorizationAnswered(status: AuthorizationStatus)
      requires awaitingAuthorization
      modifies this`awaitingAuthorization, this`responses, bindings`active
      ensures !awaitingAuthorization
      ensures responses == old(responses) + (if picker.authorizationResponse.Some? then [status] else [])
      ensures bindings.active == (if CanAccessPhotos(status) then old(bindings.active) else None)
    {
      awaitingAuthorization := false;
      CheckAccess(status);
    }

    /** The processor's callback: every result but processing is stored and
        dismisses the picker, as long as the coordinator is still alive. */
    method Receive(result: PickerResult, alive: bool)
      modifies bindings
      ensures result.Processing? || !alive ==>
                bindings.selectedImages == old(bindings.selectedImages) && bindings.active == old(bindings.active)
      ensures !result.Processing? && alive ==> bindings.selectedImages == Some(result) && bindings.active == None
    {
      if !result.Processing? && alive {
        bindings.selectedImages := Some(result);
        bindings.active := None;
      }
    }

    /** `picker(_:didFinishPicking:)`. */
    method DidFinishPicking(results: seq<PickedItem>, library: map<string, Asset>, alive: bool)
      modifies bindings
      ensures !alive ==> bindings.selectedImages == old(bindings.selectedImages) && bindings.active == old(bindings.active)
      ensures alive ==> bindings.active == None
      ensures alive ==>
                var assets := FetchAssets(Identifiers(results), library);
                bindings.selectedImages == Some(if assets == [] then PickerResult.Cancelled else Outcome(assets))
    {
      var assetIdentifiers := Identifiers(results);
      var assets := FetchAssets(assetIdentifiers, library);
      var emitted := Process(assets);
      var k := 0;
      while k < |emitted|
        invariant 0 <= k <= |emitted|
        invariant !alive ==> bindings.selectedImages == old(bindings.selectedImages) && bindings.active == old(bindings.active)
        invariant alive && k > 0 && !emitted[k - 1].Processing? ==>
                    bindings.selectedImages == Some(emitted[k - 1]) && bindings.active == None
      {
        Receive(emitted[k], alive);
        k := k + 1;
      }
    }
  }

  /** Picking nothing the library knows (an empty selection, as when the user
      dismisses the picker) stores `.cancelled`. */
  lemma NothingPickedIsCancelled(results: seq<PickedItem>, library: map<string, Asset>)
    requires forall r :: r in results ==> r.assetIdentifier.None? || r.assetIdentifier.value !in library
    ensures FetchAssets(Identifiers(results), library) == []
  {
    forall x | x in Identifiers(results)
      ensures x !in library
    {
      assert PickedItem(Some(x)) in results;
    }
  }
}
