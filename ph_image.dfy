// PHImage: an image with its library metadata, and its Codable conformance.
// The coder is a keyed container: a finite map from key strings to values.
// A Date travels as a number, as JSONEncoder's default date strategy writes it.
module PHImages {
  import opened Wrappers
  import opened Images

  datatype Coordinate = Coordinate(latitude: real, longitude: real)

  /** A point in time, seconds since the reference date. */
  type Date = real

  datatype Metadata = Metadata(location: Option<Coordinate>, creationDate: Option<Date>)

  datatype PHImage = PHImage(image: Image, metadata: Metadata)

  datatype PHImageError = LibraryAccessDenied | Cancelled

  /** A value in a keyed coding container. */
  datatype Value =
    | Null
    | Number(n: real)
    | Text(s: string)
    | Bytes(data: seq<bv8>)
    | Keyed(fields: map<string, Value>)

  type Container = map<string, Value>

  datatype DecodingError =
    | KeyNotFound(key: string)
    | ValueNotFound(key: string)
    | TypeMismatch(key: string)

  const CreationDateKey: string := "creationDate"
  const LatitudeKey: string := "latitude"
  const LongitudeKey: string := "longitude"
  const ImageDataKey: string := "imageData"
  const MetadataKey: string := "metadata"

  const EmptyMetadata: Metadata := Metadata(None, None)

  /** Metadata's hand-written `==`: latitudes, longitudes and dates compared
      through optional chaining, so two missing locations are equal. */
  predicate MetadataEquals(lhs: Metadata, rhs: Metadata) {
    var lat1 := if lhs.location.Some? then Some(lhs.location.value.latitude) else None;
    var lat2 := if rhs.location.Some? then Some(rhs.location.value.latitude) else None;
    var lon1 := if lhs.location.Some? then Some(lhs.location.value.longitude) else None;
    var lon2 := if rhs.location.Some? then Some(rhs.location.value.longitude) else None;
    lat1 == lat2 && lon1 == lon2 && lhs.creationDate == rhs.creationDate
  }

  /** Over exact reals the hand-written `==` is field-wise equality. */
  lemma MetadataEqualsIsEquality(lhs: Metadata, rhs: Metadata)
    ensures MetadataEquals(lhs, rhs) <==> lhs == rhs
  {
    if MetadataEquals(lhs, rhs) && lhs.location.Some? {
      assert rhs.location.Some?;
      assert lhs.location.value == rhs.location.value;
    }
  }

  /** `encodeIfPresent`: writes the key only for a present value. */
  function EncodeIfPresent(c: Container, key: string, v: Option<real>): Container {
    if v.Some? then c[key := Number(v.value)] else c
  }

  /** Metadata's `encode(to:)`: creationDate, then latitude, then longitude,
      each written only when present. */
  function EncodeMetadata(m: Metadata): (c: Container)
    ensures CreationDateKey in c <==> m.creationDate.Some?
    ensures LatitudeKey in c <==> m.location.Some?
    ensures LongitudeKey in c <==> m.location.Some?
    ensures forall k :: k in c ==> k == CreationDateKey || k == LatitudeKey || k == LongitudeKey
  {
    var c0: Container := map[];
    var c1 := EncodeIfPresent(c0, CreationDateKey, m.creationDate);
    var c2 := EncodeIfPresent(c1, LatitudeKey, if m.location.Some? then Some(m.location.value.latitude) else None);
    EncodeIfPresent(c2, LongitudeKey, if m.location.Some? then Some(m.location.value.longitude) else None)
  }

  /** `encode(to:)` as the source writes it: one `encodeIfPresent` after the
      other into a mutable container. */
  method Encode(m: Metadata) returns (container: Container)
    ensures container == EncodeMetadata(m)
    ensures DecodeMetadata(container) == Success(m)
  {
    container := map[];
    if m.creationDate.Some? {
      container := container[CreationDateKey := Number(m.creationDate.value)];
    }
    if m.location.Some? {
      container := container[LatitudeKey := Number(m.location.value.latitude)];
    }
    if m.location.Some? {
      container := container[LongitudeKey := Number(m.location.value.longitude)];
    }
    MetadataRoundTrip(m);
  }

  /** `decodeIfPresent(Double.self, forKey:)`: nil for a missing key or null,
      the number for a number, a type mismatch for anything else. */
  function DecodeIfPresent(c: Container, key: string): (r: Result<Option<real>, DecodingError>)
    ensures key !in c ==> r == Success(None)
    ensures key in c && c[key].Null? ==> r == Success(None)
    ensures key in c && c[key].Number? ==> r == Success(Some(c[key].n))
    ensures key in c && !c[key].Null? && !c[key].Number? ==> r == Failure(TypeMismatch(key))
  {
    if key !in c then Success(None)
    else match c[key]
      case Null => Success(None)
      case Number(n) => Success(Some(n))
      case _ => Failure(TypeMismatch(key))
  }

  /** Metadata's `init(from:)`. The date is read first. The longitude is only
      read once a latitude was found, and a location needs both. */
  function DecodeMetadata(c: Container): (r: Result<Metadata, DecodingError>)
    ensures DecodeIfPresent(c, CreationDateKey).Failure? ==> r == Failure(TypeMismatch(CreationDateKey))
    ensures r.Failure? ==> r.error == TypeMismatch(CreationDateKey) || r.error == TypeMismatch(LatitudeKey) ||
                           r.error == TypeMismatch(LongitudeKey)
    ensures r.Success? ==> r.value.creationDate == DecodeIfPresent(c, CreationDateKey).value
    ensures r.Success? && r.value.location.Some? ==>
              LatitudeKey in c && c[LatitudeKey] == Number(r.value.location.value.latitude) &&
              LongitudeKey in c && c[LongitudeKey] == Number(r.value.location.value.longitude)
    ensures r.Success? && r.value.location.None? ==>
              DecodeIfPresent(c, LatitudeKey) == Success(None) || DecodeIfPresent(c, LongitudeKey) == Success(None)
  {
    match DecodeIfPresent(c, CreationDateKey)
    case Failure(e) => Failure(e)
    case Success(date) =>
      match DecodeIfPresent(c, LatitudeKey)
      case Failure(e) => Failure(e)
      case Success(None) => Success(Metadata(None, date))
      case Success(Some(lat)) =>
        match DecodeIfPresent(c, LongitudeKey)
        case Failure(e) => Failure(e)
        case Success(None) => Success(Metadata(None, date))
        case Success(Some(lon)) => Success(Metadata(Some(Coordinate(lat, lon)), date))
  }

  /** The round trip: decoding what was encoded gives back the same metadata. */
  lemma MetadataRoundTrip(m: Metadata)
    ensures DecodeMetadata(EncodeMetadata(m)) == Success(m)
  {
    var c := EncodeMetadata(m);
    if m.creationDate.Some? {
      assert c[CreationDateKey] == Number(m.creationDate.value);
    }
    if m.location.Some? {
      assert c[LatitudeKey] == Number(m.location.value.latitude);
      assert c[LongitudeKey] == Number(m.location.value.longitude);
    }
  }

  /** The empty metadata writes no key at all, and reads back as itself. */
  lemma EmptyMetadataEncodesNothing()
    ensures EncodeMetadata(EmptyMetadata) == map[]
    ensures DecodeMetadata(map[]) == Success(EmptyMetadata)
  {
  }

  /** A container with only one of the two coordinates decodes without a
      location but keeps the date. */
  lemma OneCoordinateGivesNoLocation(date: Option<Date>, key: string, v: real)
    requires key == LatitudeKey || key == LongitudeKey
    ensures var c := EncodeIfPresent(map[], CreationDateKey, date)[key := Number(v)];
            DecodeMetadata(c) == Success(Metadata(None, date))
  {
    var c := EncodeIfPresent(map[], CreationDateKey, date)[key := Number(v)];
    if date.Some? {
      assert c[CreationDateKey] == Number(date.value);
    }
    if key == LatitudeKey {
      assert LongitudeKey !in c;
    } else {
      assert LatitudeKey !in c;
    }
  }

  /** PHImage's `encode(to:)`: exactly the keys imageData and metadata. The
      image goes through `pngData()`, a foreign call whose result is `png`;
      a nil PNG is written as null. */
  function EncodePHImage(p: PHImage, png: Option<seq<bv8>>): (c: Container)
    ensures c.Keys == {ImageDataKey, MetadataKey}
    ensures c[MetadataKey] == Keyed(EncodeMetadata(p.metadata))
  {
    map[ImageDataKey := if png.Some? then Bytes(png.value) else Null,
        MetadataKey := Keyed(EncodeMetadata(p.metadata))]
  }

  /** PHImage's `init(from:)`. `imageFromData` stands for `UIImage(data:)`:
      image data that does not decode to an image is a type mismatch. */
  function DecodePHImage(c: Container, imageFromData: seq<bv8> -> Option<Image>): (r: Result<PHImage, DecodingError>)
    ensures ImageDataKey !in c ==> r == Failure(KeyNotFound(ImageDataKey))
    ensures ImageDataKey in c && c[ImageDataKey].Bytes? && imageFromData(c[ImageDataKey].data).None? ==>
              r == Failure(TypeMismatch(ImageDataKey))
  {
    if ImageDataKey !in c then Failure(KeyNotFound(ImageDataKey))
    else match c[ImageDataKey]
      case Null => Failure(ValueNotFound(ImageDataKey))
      case Bytes(data) =>
        (match imageFromData(data)
         case None => Failure(TypeMismatch(ImageDataKey))
         case Some(image) =>
           if MetadataKey !in c then Failure(KeyNotFound(MetadataKey))
           else match c[MetadataKey]
             case Null => Failure(ValueNotFound(MetadataKey))
             case Keyed(fields) =>
               (match DecodeMetadata(fields)
                case Failure(e) => Failure(e)
                case Success(m) => Success(PHImage(image, m)))
             case _ => Failure(TypeMismatch(MetadataKey)))
      case _ => Failure(TypeMismatch(ImageDataKey))
  }

  /** A PHImage whose PNG data decodes back to an image survives the round
      trip, with that image and the same metadata. */
  lemma PHImageRoundTrip(p: PHImage, png: seq<bv8>, imageFromData: seq<bv8> -> Option<Image>)
    requires imageFromData(png).Some?
    ensures DecodePHImage(EncodePHImage(p, Some(png)), imageFromData) ==
            Success(PHImage(imageFromData(png).value, p.metadata))
  {
    MetadataRoundTrip(p.metadata);
  }

  /** An image without PNG data can be encoded but not decoded again. */
  lemma MissingPNGDoesNotDecode(p: PHImage, imageFromData: seq<bv8> -> Option<Image>)
    ensures DecodePHImage(EncodePHImage(p, None), imageFromData) == Failure(ValueNotFound(ImageDataKey))
  {
  }
}
