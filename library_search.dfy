// PHImage.search(from:to:completion:): ask for library access, fetch the
// assets created in a date range, process them, and report one Result.
module LibrarySearch {
  import opened Wrappers
  import opened PHImages
  import opened FetchProcessing
  import opened LibraryPicker

  /** What the authorisation switch does with a status. */
  datatype AccessDecision = Deny | RunSearch | Trap

  /** The status switch of `search`: no access reports libraryAccessDenied,
      access runs the search, and a status unknown to the code is a fatal error. */
  function Decide(status: AuthorizationStatus): (d: AccessDecision)
    ensures d == RunSearch <==> CanAccessPhotos(status)
    ensures d == Trap <==> status.Unknown?
  {
    match status
    case Denied => Deny
    case Restricted => Deny
    case NotDetermined => Deny
    case Authorized => RunSearch
    case Limited => RunSearch
    case Unknown(_) => Trap
  }

  /** The fetch predicate `creationDate >= from AND creationDate <= to`; an
      asset without a creation date matches neither comparison. */
  predicate InDateRange(fromDate: Date, toDate: Date, a: Asset) {
    a.creationDate.Some? && fromDate <= a.creationDate.value && a.creationDate.value <= toDate
  }

  /** `PHAsset.fetchAssets(with:)` over the library, in library order. */
  function Matching(library: seq<Asset>, fromDate: Date, toDate: Date): (r: seq<Asset>)
    ensures |r| <= |library|
    ensures forall a :: a in r <==> a in library && InDateRange(fromDate, toDate, a)
  {
    if library == [] then []
    else
      var rest := Matching(library[1..], fromDate, toDate);
      assert forall a :: a in library <==> a == library[0] || a in library[1..];
      if InDateRange(fromDate, toDate, library[0]) then [library[0]] + rest else rest
  }

  /** The switch over the processor's callbacks: processing is not reported,
      both kinds of success report their images (the partial error is
      dropped), and cancelled reports `.cancelled`. */
  function Completion(result: PickerResult): (c: Option<Result<seq<PHImage>, PHImageError>>)
    ensures c.None? <==> result.Processing?
    ensures result.Selection? || result.PartialSuccess? ==> c == Some(Success(result.images))
    ensures result.Cancelled? ==> c == Some(Failure(PHImageError.Cancelled))
  {
    match result
    case Processing => None
    case Selection(images) => Some(Success(images))
    case PartialSuccess(images, _) => Some(Success(images))
    case Cancelled => Some(Failure(PHImageError.Cancelled))
  }

  /** The completion calls made for a sequence of processor callbacks. */
  function Reported(results: seq<PickerResult>): seq<Result<seq<PHImage>, PHImageError>> {
    if results == [] then []
    else
      var c := Completion(results[|results| - 1]);
      Reported(results[..|results| - 1]) + (if c.Some? then [c.value] else [])
  }

  /** `search(from:to:completion:)`, with the status the authorisation
      request answers and the library's assets. Returns the completion calls
      in order, and whether the process traps. */
  method Search(fromDate: Date, toDate: Date, status: AuthorizationStatus, library: seq<Asset>)
    returns (completions: seq<Result<seq<PHImage>, PHImageError>>, trapped: bool)
    ensures trapped <==> status.Unknown?
    ensures trapped ==> completions == []
    ensures !trapped && !CanAccessPhotos(status) ==> completions == [Failure(LibraryAccessDenied)]
    ensures CanAccessPhotos(status) ==>
              var assets := Matching(library, fromDate, toDate);
              completions == [if assets == [] then Failure(PHImageError.Cancelled)
                              else Success(Outcome(assets).images)]
  {
    completions, trapped := [], false;
    match Decide(status)
    case Deny =>
      completions := [Failure(LibraryAccessDenied)];
    case Trap =>
      trapped := true;
    case RunSearch =>
      var assets := Matching(library, fromDate, toDate);
      var emitted := Process(assets);
      OutcomeClassification(assets);
      var k := 0;
      while k < |emitted|
        invariant 0 <= k <= |emitted|
        invariant completions == Reported(emitted[..k])
      {
        var c := Completion(emitted[k]);
        if c.Some? {
          completions := completions + [c.value];
        }
        assert emitted[..k + 1][..k] == emitted[..k];
        k := k + 1;
      }
      assert emitted[..k] == emitted;
      if assets != [] {
        assert emitted[..1] == [Processing];
        assert Reported(emitted[..1]) == [] by {
          assert emitted[..1][..0] == [];
        }
      } else {
        assert emitted[..0] == [];
      }
  }

}
