// PHFetchResultProcessor: turning the image requests made for a batch of
// library assets into one picker result. Each asset's image request calls its
// result handler zero or more times; every call is a delivery carrying an
// optional image and an optional info dictionary. Deliveries are gathered in
// order, then one entry is kept per request id, preferring full quality.
module FetchProcessing {
  import opened Wrappers
  import opened Images
  import opened PHImages

  /** PHImagePickerResult. */
  datatype PickerResult =
    | Processing
    | Selection(images: seq<PHImage>)
    | PartialSuccess(images: seq<PHImage>, error: string)
    | Cancelled

  /** The info dictionary of one delivery, after the casts the handler makes:
      the request id and the degraded flag `as? Int`, the error `as? String`;
      None where the key is missing or holds another type. */
  datatype RequestInfo = RequestInfo(requestId: Option<int>, degraded: Option<int>, error: Option<string>)

  datatype Delivery = Delivery(image: Option<Image>, info: Option<RequestInfo>)

  /** A library asset: its location and creation date, and what its image
      request delivers to the handler, in order. */
  datatype Asset = Asset(location: Option<Coordinate>, creationDate: Option<Date>, deliveries: seq<Delivery>)

  /** The processor's private ImageInfo record. */
  datatype ImageInfo = ImageInfo(image: PHImage, id: int, degraded: bool)

  /** A delivery together with the metadata of the asset it belongs to. */
  datatype Event = Event(metadata: Metadata, delivery: Delivery)

  const UnknownError: string := "Unknown error"

  function MetadataOf(a: Asset): Metadata {
    Metadata(a.location, a.creationDate)
  }

  function EventsOf(a: Asset): seq<Event> {
    seq(|a.deliveries|, k requires 0 <= k < |a.deliveries| => Event(MetadataOf(a), a.deliveries[k]))
  }

  /** Every delivery of the batch, asset by asset. */
  function Events(assets: seq<Asset>): seq<Event> {
    if assets == [] then [] else Events(assets[..|assets| - 1]) + EventsOf(assets[|assets| - 1])
  }

  /** The handler only looks at deliveries with an info dictionary holding a request id. */
  predicate Identified(d: Delivery) {
    d.info.Some? && d.info.value.requestId.Some?
  }

  /** What one delivery adds to `imageResults`. */
  function CollectOne(e: Event): (r: seq<ImageInfo>)
    ensures |r| <= 1
    ensures |r| == 1 <==> Identified(e.delivery) && e.delivery.image.Some?
    ensures |r| == 1 ==> r[0].id == e.delivery.info.value.requestId.value
    ensures |r| == 1 ==> r[0].image == PHImage(e.delivery.image.value, e.metadata)
    ensures |r| == 1 ==> (r[0].degraded <==> e.delivery.info.value.degraded == Some(1))
  {
    var d := e.delivery;
    if Identified(d) && d.image.Some? then
      [ImageInfo(PHImage(d.image.value, e.metadata), d.info.value.requestId.value, d.info.value.degraded == Some(1))]
    else []
  }

  /** What one delivery writes to `importError`, if anything. An identified
      delivery either adds an image or sets the error, never both; the error
      text defaults to "Unknown error". */
  function ErrorOf(e: Event): (r: Option<string>)
    ensures !Identified(e.delivery) ==> r.None? && CollectOne(e) == []
    ensures Identified(e.delivery) ==> (r.Some? <==> CollectOne(e) == [])
    ensures r.Some? && e.delivery.info.value.error.None? ==> r.value == UnknownError
  {
    var d := e.delivery;
    if Identified(d) && d.image.None? then Some(d.info.value.error.GetOr(UnknownError)) else None
  }

  /** `imageResults` after the given deliveries. */
  function Collected(es: seq<Event>): seq<ImageInfo> {
    if es == [] then [] else Collected(es[..|es| - 1]) + CollectOne(es[|es| - 1])
  }

  /** `importError` after the given deliveries: each failed delivery overwrites it. */
  function LastError(es: seq<Event>): Option<string> {
    if es == [] then None
    else match ErrorOf(es[|es| - 1])
      case Some(m) => Some(m)
      case None => LastError(es[..|es| - 1])
  }

  lemma AppendEvent(es: seq<Event>, e: Event)
    ensures Collected(es + [e]) == Collected(es) + CollectOne(e)
    ensures LastError(es + [e]) == if ErrorOf(e).Some? then ErrorOf(e) else LastError(es)
  {
    assert (es + [e])[..|es|] == es;
  }

  /** One more delivery of a run of deliveries, in the handler's terms. */
  lemma NextEvent(before: seq<Event>, events: seq<Event>, j: nat)
    requires j < |events|
    ensures Collected(before + events[..j + 1]) == Collected(before + events[..j]) + CollectOne(events[j])
    ensures LastError(before + events[..j + 1]) ==
              if ErrorOf(events[j]).Some? then ErrorOf(events[j]) else LastError(before + events[..j])
  {
    assert before + events[..j + 1] == before + events[..j] + [events[j]];
    AppendEvent(before + events[..j], events[j]);
  }

  /** Every delivery of the batch carries the metadata of the asset it was
      requested for: the location and creation date of that same asset. */
  lemma {:induction false} EventsComeFromTheirAsset(assets: seq<Asset>)
    ensures forall e :: e in Events(assets) ==>
              exists a :: a in assets && e.metadata == MetadataOf(a) && e.delivery in a.deliveries
  {
    if assets != [] {
      var p := assets[..|assets| - 1];
      var last := assets[|assets| - 1];
      EventsComeFromTheirAsset(p);
      forall e | e in Events(assets)
        ensures exists a :: a in assets && e.metadata == MetadataOf(a) && e.delivery in a.deliveries
      {
        if e in Events(p) {
          var a :| a in p && e.metadata == MetadataOf(a) && e.delivery in a.deliveries;
          assert a in assets;
        } else {
          var es := EventsOf(last);
          assert e in es;
          var k :| 0 <= k < |es| && es[k] == e;
          assert last.deliveries[k] in last.deliveries;
        }
      }
    }
  }

  lemma AppendAsset(assets: seq<Asset>, i: nat)
    requires i < |assets|
    ensures Events(assets[..i + 1]) == Events(assets[..i]) + EventsOf(assets[i])
  {
    assert assets[..i + 1][..i] == assets[..i];
  }

  // ---------------------------------------------------------------------
  // The `reduce(into:)` that keeps one entry per request id.

  predicate HasId(s: seq<ImageInfo>, id: int) {
    exists j :: 0 <= j < |s| && s[j].id == id
  }

  predicate HasFull(s: seq<ImageInfo>, id: int) {
    exists j :: 0 <= j < |s| && s[j].id == id && !s[j].degraded
  }

  /** `first(where: { $0.id == id && !$0.degraded })`: the first full-quality
      entry with the id, and none exactly when there is no such entry. */
  function FirstFull(s: seq<ImageInfo>, id: int): (r: Option<ImageInfo>)
    ensures r.Some? ==> r.value in s && r.value.id == id && !r.value.degraded
    ensures r.Some? ==> exists k :: 0 <= k < |s| && s[k] == r.value &&
                          forall j :: 0 <= j < k ==> !(s[j].id == id && !s[j].degraded)
    ensures r.None? <==> !HasFull(s, id)
  {
    if s == [] then None
    else if s[0].id == id && !s[0].degraded then Some(s[0])
    else
      var r := FirstFull(s[1..], id);
      assert HasFull(s, id) ==> HasFull(s[1..], id) by {
        if HasFull(s, id) {
          var j :| 0 <= j < |s| && s[j].id == id && !s[j].degraded;
          assert j > 0 && s[1..][j - 1] == s[j];
        }
      }
      assert HasFull(s[1..], id) ==> HasFull(s, id) by {
        if HasFull(s[1..], id) {
          var j :| 0 <= j < |s[1..]| && s[1..][j].id == id && !s[1..][j].degraded;
          assert s[j + 1] == s[1..][j];
        }
      }
      assert r.Some? ==> exists k :: 0 <= k < |s| && s[k] == r.value &&
                            forall j :: 0 <= j < k ==> !(s[j].id == id && !s[j].degraded) by {
        if r.Some? {
          var k :| 0 <= k < |s[1..]| && s[1..][k] == r.value &&
                   forall j :: 0 <= j < k ==> !(s[1..][j].id == id && !s[1..][j].degraded);
          assert s[k + 1] == r.value;
          forall j | 0 <= j < k + 1
            ensures !(s[j].id == id && !s[j].degraded)
          {
            if j > 0 { assert s[j] == s[1..][j - 1]; }
          }
        }
      }
      r
  }

  /** The first entry with the id, if any: none exactly when no entry has the
      id, and otherwise the entry at the id's first position. */
  function FirstWith(s: seq<ImageInfo>, id: int): (r: Option<ImageInfo>)
    ensures r.Some? ==> r.value in s && r.value.id == id
    ensures r.None? <==> !HasId(s, id)
    ensures r.Some? ==> FirstIndex(s, id) < |s| && r.value == s[FirstIndex(s, id)]
  {
    if s == [] then None
    else if s[0].id == id then Some(s[0])
    else
      var r := FirstWith(s[1..], id);
      assert HasId(s, id) ==> HasId(s[1..], id) by {
        if HasId(s, id) {
          var j :| 0 <= j < |s| && s[j].id == id;
          assert j > 0 && s[1..][j - 1] == s[j];
        }
      }
      assert HasId(s[1..], id) ==> HasId(s, id) by {
        if HasId(s[1..], id) {
          var j :| 0 <= j < |s[1..]| && s[1..][j].id == id;
          assert s[j + 1] == s[1..][j];
        }
      }
      r
  }

  /** The entry one delivery contributes when its id is new: itself, unless
      it is degraded and a full-quality delivery with its id exists. */
  function Chosen(all: seq<ImageInfo>, r: ImageInfo): ImageInfo {
    if r.degraded then
      match FirstFull(all, r.id)
      case Some(h) => h
      case None => r
    else r
  }

  /** The accumulator after the first k entries of `all`. */
  function Reduce(all: seq<ImageInfo>, k: nat): seq<ImageInfo>
    requires k <= |all|
  {
    if k == 0 then []
    else
      var acc := Reduce(all, k - 1);
      if HasId(acc, all[k - 1].id) then acc else acc + [Chosen(all, all[k - 1])]
  }

  /** `highQualityResults`. */
  function Dedup(all: seq<ImageInfo>): seq<ImageInfo> {
    Reduce(all, |all|)
  }

  /** `map { $0.image }`. */
  function ImagesOf(s: seq<ImageInfo>): seq<PHImage> {
    seq(|s|, i requires 0 <= i < |s| => s[i].image)
  }

  /** The final callback of a non-empty batch. */
  function Outcome(assets: seq<Asset>): PickerResult {
    var es := Events(assets);
    var kept := ImagesOf(Dedup(Collected(es)));
    match LastError(es)
    case Some(m) => PartialSuccess(kept, m)
    case None => Selection(kept)
  }

  /** The reduce loop, over the gathered entries. */
  method KeepBest(imageResults: seq<ImageInfo>) returns (result: seq<ImageInfo>)
    ensures result == Dedup(imageResults)
  {
    result := [];
    var i := 0;
    while i < |imageResults|
      invariant 0 <= i <= |imageResults|
      invariant result == Reduce(imageResults, i)
    {
      var imageResult := imageResults[i];
      if !HasId(result, imageResult.id) {
        if imageResult.degraded {
          var hqVersion := FirstFull(imageResults, imageResult.id);
          if hqVersion.Some? {
            result := result + [hqVersion.value];
          } else {
            result := result + [imageResult];
          }
        } else {
          result := result + [imageResult];
        }
      }
      i := i + 1;
    }
  }

  /** The request's result handler: an identified delivery either appends
      its entry or overwrites the error; any other delivery is dropped. */
  method HandleDelivery(metadata: Metadata, image: Option<Image>, info: Option<RequestInfo>,
                        imageResults: seq<ImageInfo>, importError: Option<string>)
    returns (newResults: seq<ImageInfo>, newError: Option<string>)
    ensures newResults == imageResults + CollectOne(Event(metadata, Delivery(image, info)))
    ensures newError == if ErrorOf(Event(metadata, Delivery(image, info))).Some?
                        then ErrorOf(Event(metadata, Delivery(image, info))) else importError
  {
    newResults, newError := imageResults, importError;
    if info.Some? && info.value.requestId.Some? {
      if image.Some? {
        var degraded := info.value.degraded == Some(1);
        var phImage := PHImage(image.value, metadata);
        newResults := imageResults + [ImageInfo(phImage, info.value.requestId.value, degraded)];
      } else {
        newError := Some(info.value.error.GetOr(UnknownError));
      }
    }
  }

  /** One asset's synchronous image request: every delivery goes through the
      handler, in order. */
  method RequestImage(asset: Asset, ghost before: seq<Event>, imageResults: seq<ImageInfo>, importError: Option<string>)
    returns (newResults: seq<ImageInfo>, newError: Option<string>)
    requires imageResults == Collected(before) && importError == LastError(before)
    ensures newResults == Collected(before + EventsOf(asset))
    ensures newError == LastError(before + EventsOf(asset))
  {
    newResults, newError := imageResults, importError;
    var events := EventsOf(asset);
    assert before + events[..0] == before;
    var j := 0;
    while j < |asset.deliveries|
      invariant 0 <= j <= |asset.deliveries|
      invariant newResults == Collected(before + events[..j])
      invariant newError == LastError(before + events[..j])
    {
      var e := events[j];
      assert e.delivery == Delivery(e.delivery.image, e.delivery.info);
      newResults, newError := HandleDelivery(MetadataOf(asset), e.delivery.image, e.delivery.info,
                                             newResults, newError);
      NextEvent(before, events, j);
      j := j + 1;
    }
    assert events[..j] == events;
  }

  /** `process(_:targetSize:result:)`. The callbacks it makes are returned in
      the order they are made. */
  method Process(assets: seq<Asset>) returns (emitted: seq<PickerResult>)
    ensures assets == [] ==> emitted == [PickerResult.Cancelled]
    ensures assets != [] ==> emitted == [Processing, Outcome(assets)]
  {
    if |assets| == 0 {
      return [PickerResult.Cancelled];
    }
    emitted := [Processing];
    var imageResults: seq<ImageInfo> := [];
    var importError: Option<string> := None;
    var i := 0;
    while i < |assets|
      invariant 0 <= i <= |assets|
      invariant imageResults == Collected(Events(assets[..i]))
      invariant importError == LastError(Events(assets[..i]))
    {
      imageResults, importError := RequestImage(assets[i], Events(assets[..i]), imageResults, importError);
      AppendAsset(assets, i);
      i := i + 1;
    }
    assert assets[..i] == assets;
    var highQualityResults := KeepBest(imageResults);
    if importError.Some? {
      emitted := emitted + [PartialSuccess(ImagesOf(highQualityResults), importError.value)];
    } else {
      emitted := emitted + [Selection(ImagesOf(highQualityResults))];
    }
  }

  // ---------------------------------------------------------------------
  // Properties of the gathering step.

  /** A delivery without info or without a request id changes neither the
      gathered entries nor the error. */
  lemma UnidentifiedIgnored(es: seq<Event>, e: Event)
    requires !Identified(e.delivery)
    ensures Collected(es + [e]) == Collected(es)
    ensures LastError(es + [e]) == LastError(es)
  {
    AppendEvent(es, e);
  }

  /** The result is partial exactly when some identified delivery came
      without an image, and its error is the one of the last such delivery
      ("Unknown error" when that delivery names none). */
  lemma {:induction false} LastErrorWins(es: seq<Event>)
    ensures LastError(es).None? <==> forall i :: 0 <= i < |es| ==> ErrorOf(es[i]).None?
    ensures LastError(es).Some? ==>
              exists i :: 0 <= i < |es| && ErrorOf(es[i]) == LastError(es) &&
                forall j :: i < j < |es| ==> ErrorOf(es[j]).None?
  {
    NoErrorExactly(es);
    LastFailureWins(es);
  }

  lemma {:induction false} NoErrorExactly(es: seq<Event>)
    ensures LastError(es).None? <==> forall i :: 0 <= i < |es| ==> ErrorOf(es[i]).None?
  {
    if es != [] {
      var p := es[..|es| - 1];
      NoErrorExactly(p);
      assert forall i :: 0 <= i < |p| ==> p[i] == es[i];
    }
  }

  lemma {:induction false} LastFailureWins(es: seq<Event>)
    ensures LastError(es).Some? ==>
              exists i :: 0 <= i < |es| && ErrorOf(es[i]) == LastError(es) &&
                forall j :: i < j < |es| ==> ErrorOf(es[j]).None?
  {
    if es != [] {
      var p := es[..|es| - 1];
      LastFailureWins(p);
      assert forall i :: 0 <= i < |p| ==> p[i] == es[i];
      if ErrorOf(es[|es| - 1]).None? && LastError(p).Some? {
        var i :| 0 <= i < |p| && ErrorOf(p[i]) == LastError(p) &&
                 forall j :: i < j < |p| ==> ErrorOf(p[j]).None?;
        assert ErrorOf(es[i]) == LastError(es);
      }
    }
  }

  /** Every gathered entry is the entry of one delivery, and every identified
      delivery with an image contributes its entry. */
  lemma {:induction false} CollectedEntries(es: seq<Event>)
    ensures forall x :: x in Collected(es) ==> exists i :: 0 <= i < |es| && CollectOne(es[i]) == [x]
    ensures forall i :: 0 <= i < |es| && |CollectOne(es[i])| == 1 ==> CollectOne(es[i])[0] in Collected(es)
  {
    if es != [] {
      var p := es[..|es| - 1];
      CollectedEntries(p);
      assert forall i :: 0 <= i < |p| ==> p[i] == es[i];
      assert Collected(es) == Collected(p) + CollectOne(es[|es| - 1]);
    }
  }

  // ---------------------------------------------------------------------
  // A reference definition of the deduplicated list: the ids in order of
  // first appearance, each with its preferred entry.

  /** The ids of `s`, each once, in the order they first appear. */
  function FirstAppearances(s: seq<ImageInfo>): seq<int> {
    if s == [] then []
    else
      var p := FirstAppearances(s[..|s| - 1]);
      if s[|s| - 1].id in p then p else p + [s[|s| - 1].id]
  }

  /** The entry kept for an id: the first full-quality one, else the first. */
  function Pick(all: seq<ImageInfo>, id: int): Option<ImageInfo> {
    if FirstFull(all, id).Some? then FirstFull(all, id) else FirstWith(all, id)
  }

  function Ids(s: seq<ImageInfo>): (r: seq<int>)
    ensures |r| == |s| && forall i :: 0 <= i < |s| ==> r[i] == s[i].id
  {
    seq(|s|, i requires 0 <= i < |s| => s[i].id)
  }

  /** Where an id first appears; |s| when it does not. */
  function FirstIndex(s: seq<ImageInfo>, id: int): (r: nat)
    ensures r <= |s|
    ensures r < |s| ==> s[r].id == id
    ensures forall j :: 0 <= j < r ==> s[j].id != id
  {
    if s == [] then 0
    else if s[0].id == id then 0
    else
      var r := FirstIndex(s[1..], id);
      assert forall j :: 1 <= j < r + 1 ==> s[j] == s[1..][j - 1];
      r + 1
  }

  lemma {:induction false} FirstAppearancesMembers(s: seq<ImageInfo>, x: int)
    ensures x in FirstAppearances(s) <==> HasId(s, x)
  {
    if s != [] {
      var p := s[..|s| - 1];
      FirstAppearancesMembers(p, x);
      if HasId(p, x) {
        var j :| 0 <= j < |p| && p[j].id == x;
        assert s[j] == p[j];
      }
      if HasId(s, x) && s[|s| - 1].id != x {
        var j :| 0 <= j < |s| && s[j].id == x;
        assert p[j] == s[j];
      }
    }
  }

  lemma {:induction false} FirstAppearancesDistinct(s: seq<ImageInfo>)
    ensures forall i, j :: 0 <= i < j < |FirstAppearances(s)| ==> FirstAppearances(s)[i] != FirstAppearances(s)[j]
  {
    if s != [] {
      FirstAppearancesDistinct(s[..|s| - 1]);
    }
  }

  lemma {:induction false} FirstIndexExtend(p: seq<ImageInfo>, e: ImageInfo, y: int)
    requires HasId(p, y)
    ensures FirstIndex(p + [e], y) == FirstIndex(p, y) < |p|
  {
    var j :| 0 <= j < |p| && p[j].id == y;
    if p[0].id != y {
      assert j > 0 && p[1..][j - 1] == p[j];
      assert (p + [e])[1..] == p[1..] + [e];
      FirstIndexExtend(p[1..], e, y);
    }
  }

  lemma {:induction false} FirstAppearancesOrdered(s: seq<ImageInfo>)
    ensures forall i, j :: 0 <= i < j < |FirstAppearances(s)| ==>
              FirstIndex(s, FirstAppearances(s)[i]) < FirstIndex(s, FirstAppearances(s)[j])
  {
    if s != [] {
      var p := s[..|s| - 1];
      var e := s[|s| - 1];
      assert s == p + [e];
      FirstAppearancesOrdered(p);
      var fp := FirstAppearances(p);
      forall y | y in fp
        ensures FirstIndex(s, y) == FirstIndex(p, y) < |p|
      {
        FirstAppearancesMembers(p, y);
        FirstIndexExtend(p, e, y);
      }
      if e.id !in fp {
        FirstAppearancesMembers(p, e.id);
        assert FirstIndex(s, e.id) == |p| by {
          assert forall j :: 0 <= j < |p| ==> s[j].id != e.id by {
            assert forall j :: 0 <= j < |p| ==> s[j] == p[j];
          }
        }
      }
    }
  }

  /** When an id first appears at index k, the first entry with that id is
      `all[k]`, and if that one is full quality, so is the first full one. */
  lemma {:induction false} FirstAt(all: seq<ImageInfo>, k: nat, id: int)
    requires k < |all| && all[k].id == id
    requires forall j :: 0 <= j < k ==> all[j].id != id
    ensures FirstWith(all, id) == Some(all[k])
    ensures !all[k].degraded ==> FirstFull(all, id) == Some(all[k])
  {
    if k > 0 {
      assert all[1..][k - 1] == all[k];
      FirstAt(all[1..], k - 1, id);
    }
  }

  /** The entry the reduce appends for an id at its first position is the
      one the reference picks for that id. */
  lemma PickNewId(all: seq<ImageInfo>, k: nat)
    requires k < |all|
    requires forall j :: 0 <= j < k ==> all[j].id != all[k].id
    ensures Chosen(all, all[k]).id == all[k].id
    ensures Pick(all, all[k].id) == Some(Chosen(all, all[k]))
  {
    FirstAt(all, k, all[k].id);
  }

  /** The reduce builds exactly the reference list: one entry per id in order
      of first appearance, each the preferred entry for its id. */
  lemma ReduceMatchesReference(all: seq<ImageInfo>, k: nat)
    requires k <= |all|
    ensures Ids(Reduce(all, k)) == FirstAppearances(all[..k])
    ensures forall i :: 0 <= i < |Reduce(all, k)| ==> Pick(all, Reduce(all, k)[i].id) == Some(Reduce(all, k)[i])
  {
    ReduceIds(all, k);
    ReducePicks(all, k);
  }

  /** Whether the reduce appends the k-th entry: exactly when its id has not
      appeared before, in which case it is that id's first position. */
  lemma ReduceAppends(all: seq<ImageInfo>, k: nat)
    requires 0 < k <= |all|
    requires Ids(Reduce(all, k - 1)) == FirstAppearances(all[..k - 1])
    ensures !HasId(Reduce(all, k - 1), all[k - 1].id) ==> forall j :: 0 <= j < k - 1 ==> all[j].id != all[k - 1].id
    ensures HasId(Reduce(all, k - 1), all[k - 1].id) <==> all[k - 1].id in FirstAppearances(all[..k - 1])
  {
    var acc := Reduce(all, k - 1);
    var r := all[k - 1];
    FirstAppearancesMembers(all[..k - 1], r.id);
    assert HasId(acc, r.id) <==> r.id in Ids(acc);
    if !HasId(acc, r.id) {
      assert forall j :: 0 <= j < k - 1 ==> all[..k - 1][j] == all[j];
    }
  }

  lemma {:induction false} ReduceIds(all: seq<ImageInfo>, k: nat)
    requires k <= |all|
    ensures Ids(Reduce(all, k)) == FirstAppearances(all[..k])
  {
    if k > 0 {
      ReduceIds(all, k - 1);
      var acc := Reduce(all, k - 1);
      var r := all[k - 1];
      assert all[..k][..k - 1] == all[..k - 1];
      assert all[..k][k - 1] == r;
      ReduceAppends(all, k);
      if !HasId(acc, r.id) {
        var c := Chosen(all, r);
        PickNewId(all, k - 1);
        assert Ids(acc + [c]) == Ids(acc) + [c.id];
      }
    }
  }

  lemma {:induction false} ReducePicks(all: seq<ImageInfo>, k: nat)
    requires k <= |all|
    ensures forall i :: 0 <= i < |Reduce(all, k)| ==> Pick(all, Reduce(all, k)[i].id) == Some(Reduce(all, k)[i])
  {
    if k > 0 {
      ReducePicks(all, k - 1);
      ReduceIds(all, k - 1);
      ReduceAppends(all, k);
      if !HasId(Reduce(all, k - 1), all[k - 1].id) {
        PickNewId(all, k - 1);
      }
    }
  }

  /** The kept list holds at most one entry per request id. */
  lemma DedupUniqueIds(all: seq<ImageInfo>)
    ensures forall i, j :: 0 <= i < j < |Dedup(all)| ==> Dedup(all)[i].id != Dedup(all)[j].id
  {
    ReduceMatchesReference(all, |all|);
    assert all[..|all|] == all;
    FirstAppearancesDistinct(all);
    assert forall i :: 0 <= i < |Dedup(all)| ==> Dedup(all)[i].id == FirstAppearances(all)[i];
  }

  /** Every request id that delivered an image has an entry, and no other id does. */
  lemma DedupKeepsEveryId(all: seq<ImageInfo>, id: int)
    ensures HasId(Dedup(all), id) <==> HasId(all, id)
  {
    ReduceMatchesReference(all, |all|);
    assert all[..|all|] == all;
    FirstAppearancesMembers(all, id);
    assert HasId(Dedup(all), id) <==> id in Ids(Dedup(all));
  }

  /** Entries are in the order in which their ids first appear. */
  lemma DedupFirstAppearanceOrder(all: seq<ImageInfo>)
    ensures forall i, j :: 0 <= i < j < |Dedup(all)| ==>
              FirstIndex(all, Dedup(all)[i].id) < FirstIndex(all, Dedup(all)[j].id)
  {
    ReduceMatchesReference(all, |all|);
    assert all[..|all|] == all;
    FirstAppearancesOrdered(all);
    assert forall i :: 0 <= i < |Dedup(all)| ==> Dedup(all)[i].id == FirstAppearances(all)[i];
  }

  /** Each kept entry is one of the gathered entries, and it is full quality
      (indeed the first full-quality one for its id) whenever a full-quality
      delivery with its id exists. */
  lemma DedupPrefersFullQuality(all: seq<ImageInfo>)
    ensures forall i :: 0 <= i < |Dedup(all)| ==> Dedup(all)[i] in all
    ensures forall i :: 0 <= i < |Dedup(all)| && HasFull(all, Dedup(all)[i].id) ==>
              Dedup(all)[i] == FirstFull(all, Dedup(all)[i].id).value && !Dedup(all)[i].degraded
  {
    ReduceMatchesReference(all, |all|);
  }

  /** A non-empty batch ends in a selection or a partial success, never in
      another processing or cancelled callback; it is partial exactly when an
      identified delivery failed. */
  lemma OutcomeClassification(assets: seq<Asset>)
    ensures Outcome(assets).Selection? || Outcome(assets).PartialSuccess?
    ensures Outcome(assets).PartialSuccess? <==>
              exists i :: 0 <= i < |Events(assets)| && ErrorOf(Events(assets)[i]).Some?
  {
    var es := Events(assets);
    LastErrorWins(es);
    assert Outcome(assets).PartialSuccess? <==> LastError(es).Some?;
  }
}
