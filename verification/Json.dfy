/** JSON values as the parser sees them after `JSON.parse`. */
module Json {
  import opened Wrappers
  import opened Texts

  /** A number: `JSON.parse` reads "1e999" as infinity. */
  datatype Number = Finite(value: real) | NotFinite

  /** The field names the contract has, and any other. */
  datatype Name =
    | Version | ScreenId | GeneratedAt | RefreshSeconds | LocaleName | TimeZone | ReleaseChannel | LayoutName
    | Schedule | Rotation | Orientation | HeaderName | ThemeName | On | Days | From | To | Id | Seconds | Until
    | SourceName | Addon | BodyName | Kind | Title | Paragraphs | PictureName | PublishedAt | Occurrences
    | Description | Location | StartsAt | EndsAt | CalledOff | PlacesLeft | MeetingKindName | Place
    | DigitalParticipation | Agenda | Position | Resources | NameName | ModeName | SlotMinutes | OpensAtMinute
    | ClosesAtMinute | Busy | Start | End | Caption | Heading | Columns | Rows | DoorsName | Floor | Apartment
    | Names | MediaFileId | ContentType | ByteSize | AltName | Other(name: Text)

  /** `Undefined` is what reading a field an object does not have gives. */
  datatype Json =
    | Undefined
    | Null
    | Bool(b: bool)
    | Num(n: Number)
    | Str(t: Text)
    | Arr(items: seq<Json>)
    | Obj(fields: map<Name, Json>)

  function Get(v: Json, name: Name): Json
    requires v.Obj?
  {
    if name in v.fields then v.fields[name] else Undefined
  }

  /** `Number.isInteger`, with the integer. */
  function IntegerOf(v: Json): Option<int> {
    if v.Num? && v.n.Finite? && v.n.value.Floor as real == v.n.value then Some(v.n.value.Floor) else None
  }

  function Int(i: int): (v: Json)
    ensures IntegerOf(v) == Some(i)
  {
    Num(Finite(i as real))
  }

  /** `Math.round`. */
  function Round(r: real): int {
    (r + 0.5).Floor
  }

  function Ascii(s: string): (t: Text)
    ensures |t| == |s|
    ensures forall i :: 0 <= i < |s| && s[i] < 128 as char ==> t[i] == s[i] as int
  {
    seq(|s|, i requires 0 <= i < |s| => if s[i] < 128 as char then s[i] as int else 63)
  }

  /** Every item read, or nothing when one of them cannot be. */
  function AllOrNone<A>(items: seq<Json>, f: Json -> Option<A>): Option<seq<A>> {
    if forall i :: 0 <= i < |items| ==> f(items[i]).Some? then
      Some(seq(|items|, i requires 0 <= i < |items| && f(items[i]).Some? => f(items[i]).value))
    else None
  }

  function MapJson<A>(xs: seq<A>, g: A -> Json): Json {
    Arr(seq(|xs|, i requires 0 <= i < |xs| => g(xs[i])))
  }

  /** Reading inverts writing for a list when it does for each of its items. */
  lemma ListRoundTrip<A>(xs: seq<A>, f: Json -> Option<A>, g: A -> Json)
    requires forall i :: 0 <= i < |xs| ==> f(g(xs[i])) == Some(xs[i])
    ensures AllOrNone(MapJson(xs, g).items, f) == Some(xs)
  {
    var items := MapJson(xs, g).items;
    assert forall i :: 0 <= i < |items| ==> items[i] == g(xs[i]);
    assert AllOrNone(items, f).value == xs;
  }
}
