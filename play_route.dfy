/**
 * The `/play/` route's search-parameter validator: a `playlistId` string is
 * required, `index` becomes a number that is at least 1, and `fior` is kept only when
 * it is a string.
 */
module PlayRoute {
  import opened Wrappers
  import opened JsRuntime
  import opened JsObject

  /** A search parameter's value, as far as `typeof` tells it apart. */
  datatype Unknown = UStr(s: string) | UNum(n: Number) | UOther

  datatype SearchParams = SearchParams(fior: Option<string>, index: Number, playlistId: string)

  /** The error `validateSearch` throws. */
  datatype RouteError = InvalidParams

  function StringParam(search: Rec<string, Unknown>, key: string): Option<string> {
    var v := Get(search, key);
    if v.Some? && v.value.UStr? then Some(v.value.s) else None
  }

  /** `index` before the final check: a number as given, `parseInt` of a string, otherwise 1. */
  function RawIndex(search: Rec<string, Unknown>): Number {
    var v: Option<Unknown> := Get(search, "index");
    match v
    case Some(UNum(n)) => n
    case Some(UStr(s)) => FromParse(ParseInt(s))
    case _ => Finite(1.0)
  }

  /** `isNaN(index) || index < 1`. */
  predicate OutOfRange(n: Number) {
    n.NaN? || LessThan(n, 1.0)
  }

  /** `validateSearch(search)`. */
  function ValidateSearch(search: Rec<string, Unknown>): (r: Result<SearchParams, RouteError>)
    ensures r.Failure? <==> StringParam(search, "playlistId").None?
    ensures r.Ok? ==> Some(r.value.playlistId) == StringParam(search, "playlistId")
    ensures r.Ok? ==> r.value.fior == StringParam(search, "fior")
    ensures r.Ok? ==> !r.value.index.NaN? && !LessThan(r.value.index, 1.0)
  {
    var playlistId := StringParam(search, "playlistId");
    if playlistId.None? then Failure(InvalidParams)
    else
      var index := RawIndex(search);
      var index := if OutOfRange(index) then Finite(1.0) else index;
      Ok(SearchParams(StringParam(search, "fior"), index, playlistId.value))
  }

  /** The index is taken from a number or a numeric string when that is at least 1, and is 1 otherwise. */
  lemma IndexCases(search: Rec<string, Unknown>)
    requires StringParam(search, "playlistId").Some?
    ensures var index := ValidateSearch(search).value.index;
      var v: Option<Unknown> := Get(search, "index");
      match v
      case Some(UNum(n)) => index == if OutOfRange(n) then Finite(1.0) else n
      case Some(UStr(s)) =>
        index == if ParseInt(s).Some? && ParseInt(s).value >= 1 then Finite(ParseInt(s).value as real) else Finite(1.0)
      case _ => index == Finite(1.0)
  {
  }

  /** A page number written in decimal comes back as that number. */
  lemma IndexFromText(search: Rec<string, Unknown>, n: nat)
    requires StringParam(search, "playlistId").Some? && n >= 1
    requires Get(search, "index") == Some(UStr(NatToString(n)))
    ensures ValidateSearch(search).value.index == Finite(n as real)
  {
    ParseIntOfNatToString(n);
  }
}
