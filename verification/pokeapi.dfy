/** The read-through fetchers of internal/pokeapi: `ListLocations` and
    `GetLocation`.

    Both look the URL up in the client's cache; on a hit they decode the
    cached bytes, on a miss they fetch, decode, and store the raw bytes only
    when the decode succeeded. Building the request, `Do` and `ReadAll` are
    one fetch oracle, and `json.Unmarshal` into the target struct is a decode
    oracle; each network call the code makes is recorded in the outcome. */
module PokeApi {
  import opened Wrappers
  import opened PokeCache

  /** The root of every PokeAPI endpoint. */
  const BaseURL: string := "https://pokeapi.co/api/v2"

  /** The network: `http.NewRequest`, `httpClient.Do` and `io.ReadAll` for a
      URL, yielding the body bytes or the first error among them. */
  type Fetcher = string -> Result<Bytes, Error>

  /** `json.Unmarshal` into a target of type `T`. */
  type Decoder<T> = Bytes -> Result<T, Error>

  /** One entry of a location listing. */
  datatype NamedLocation = NamedLocation(name: string, url: string)

  /** `RespShallowLocations`: one page of the location listing. */
  datatype RespShallowLocations = RespShallowLocations(
    count: int,
    next: Option<string>,
    previous: Option<string>,
    results: seq<NamedLocation>)

  /** The zero value `RespShallowLocations{}` returned alongside errors. */
  const EmptyPage: RespShallowLocations := RespShallowLocations(0, None, None, [])

  /** What a fetcher call returns (`value`, `err`), the client's cache after
      the call, and the URLs it attempted to fetch, in order. An attempt may
      fail before anything is sent (at `http.NewRequest`). */
  datatype Call<T> = Call(value: T, err: Option<Error>, cache: Cache, requests: seq<string>)

  /** The read-through contract of a fetcher call `r` for the resolved `url`,
      whose value on any error is `zero`. */
  ghost predicate ReadsThrough<T>(c: Cache, url: string, now: Time, fetch: Fetcher, decode: Decoder<T>, zero: T, r: Call<T>)
  {
    // the network is consulted exactly on a miss, and only for `url`
    && r.requests == (if url in c then [] else [url])
    // a hit decodes the cached bytes, with no fallback fetch and no store
    && (url in c ==> r.cache == c)
    && (url in c ==> match decode(c[url].val)
                     case Success(v) => r.value == v && r.err == None
                     case Failure(e) => r.value == zero && r.err == Some(e))
    // a failed fetch is propagated unchanged
    && (url !in c && fetch(url).Failure? ==> r.err == Some(fetch(url).error))
    // fresh bytes that fail to decode are reported and not cached
    && (url !in c && fetch(url).Success? && decode(fetch(url).value).Failure? ==>
          r.err == Some(decode(fetch(url).value).error))
    // fresh bytes that decode are returned decoded, and stored raw under `url`
    && (url !in c && fetch(url).Success? && decode(fetch(url).value).Success? ==>
          && r.err == None
          && r.value == decode(fetch(url).value).value
          && r.cache == Add(c, url, fetch(url).value, now))
    // every error leaves the zero value and the cache as it was
    && (r.err.Some? ==> r.value == zero && r.cache == c)
    // a success leaves `url` cached with bytes that decode to the answer
    && (r.err.None? ==> url in r.cache && decode(r.cache[url].val) == Success(r.value))
    // the cache changes only by storing the fetched raw bytes under `url`
    && (r.cache != c ==> url !in c && fetch(url).Success? && r.err.None?
                         && r.cache == Add(c, url, fetch(url).value, now))
  }

  /** The shared control flow of both fetchers, for the resolved `url`. */
  function ReadThrough<T>(c: Cache, url: string, now: Time, fetch: Fetcher, decode: Decoder<T>, zero: T): (r: Call<T>)
    ensures ReadsThrough(c, url, now, fetch, decode, zero, r)
  {
    var (val, ok) := Get(c, url);
    if ok then
      match decode(val)
      case Success(v) => Call(v, None, c, [])
      case Failure(e) => Call(zero, Some(e), c, [])
    else
      match fetch(url)
      case Failure(e) => Call(zero, Some(e), c, [url])
      case Success(dat) =>
        match decode(dat)
        case Failure(e) => Call(zero, Some(e), c, [url])
        case Success(v) => Call(v, None, Add(c, url, dat, now), [url])
  }

  /** The URL `ListLocations` resolves: the first page when no page URL is
      given, otherwise exactly the given URL. */
  function ListURL(pageURL: Option<string>): (url: string)
    ensures pageURL.None? ==> url == BaseURL + "/location-area"
    ensures pageURL.Some? ==> url == pageURL.value
  {
    match pageURL
    case None => BaseURL + "/location-area"
    case Some(u) => u
  }

  /** `ListLocations(pageURL)`. */
  function ListLocations(c: Cache, pageURL: Option<string>, now: Time, fetch: Fetcher,
                         decode: Decoder<RespShallowLocations>): (r: Call<RespShallowLocations>)
    ensures ReadsThrough(c, ListURL(pageURL), now, fetch, decode, EmptyPage, r)
  {
    ReadThrough(c, ListURL(pageURL), now, fetch, decode, EmptyPage)
  }

  /** The URL `GetLocation` looks up and stores under: the location-area
      endpoint followed by the name, with nothing escaped. */
  function LocationURL(locationName: string): (url: string)
    ensures |url| == |BaseURL + "/location-area/"| + |locationName|
    ensures url[..|BaseURL + "/location-area/"|] == BaseURL + "/location-area/"
    ensures url[|BaseURL + "/location-area/"|..] == locationName
  {
    BaseURL + "/location-area/" + locationName
  }

  /** Distinct location names never share a cache entry. */
  lemma LocationURLInjective(a: string, b: string)
    ensures LocationURL(a) == LocationURL(b) <==> a == b
  {
    if LocationURL(a) == LocationURL(b) {
      assert a == LocationURL(a)[|BaseURL + "/location-area/"|..];
    }
  }

  /** A location's key never collides with the first listing page's key. */
  lemma LocationURLNotFirstPage(locationName: string)
    ensures LocationURL(locationName) != ListURL(None)
  {
    assert |LocationURL(locationName)| > |ListURL(None)|;
  }

  /** `GetLocation(locationName)`. The `Location` struct is not part of this
      model, so its type is a parameter `L` and `zero` stands for `Location{}`. */
  function GetLocation<L>(c: Cache, locationName: string, now: Time, fetch: Fetcher,
                          decode: Decoder<L>, zero: L): (r: Call<L>)
    ensures ReadsThrough(c, LocationURL(locationName), now, fetch, decode, zero, r)
  {
    ReadThrough(c, LocationURL(locationName), now, fetch, decode, zero)
  }

  /** After a successful listing call, asking again for the same page (with
      any network, at any later time) is a hit: no request, the same answer,
      and the cache untouched. */
  lemma ListLocationsSecondCallHits(c: Cache, pageURL: Option<string>, t1: Time, t2: Time,
                                    fetch1: Fetcher, fetch2: Fetcher, decode: Decoder<RespShallowLocations>)
    requires ListLocations(c, pageURL, t1, fetch1, decode).err.None?
    ensures var first := ListLocations(c, pageURL, t1, fetch1, decode);
            var second := ListLocations(first.cache, pageURL, t2, fetch2, decode);
            && second.requests == []
            && second.err.None?
            && second.value == first.value
            && second.cache == first.cache
  {
  }

  /** The same for `GetLocation`. */
  lemma GetLocationSecondCallHits<L>(c: Cache, locationName: string, t1: Time, t2: Time,
                                     fetch1: Fetcher, fetch2: Fetcher, decode: Decoder<L>, zero: L)
    requires GetLocation(c, locationName, t1, fetch1, decode, zero).err.None?
    ensures var first := GetLocation(c, locationName, t1, fetch1, decode, zero);
            var second := GetLocation(first.cache, locationName, t2, fetch2, decode, zero);
            && second.requests == []
            && second.err.None?
            && second.value == first.value
            && second.cache == first.cache
  {
  }

  /** A successful miss is remembered only until the entry is reaped: a reap
      within the interval keeps it a hit, one past the interval brings the
      fetch back. */
  lemma CachedPageExpires(c: Cache, pageURL: Option<string>, t1: Time, now: Time, interval: Duration,
                          fetch1: Fetcher, fetch2: Fetcher, decode: Decoder<RespShallowLocations>)
    requires ListURL(pageURL) !in c
    requires ListLocations(c, pageURL, t1, fetch1, decode).err.None?
    ensures var first := ListLocations(c, pageURL, t1, fetch1, decode);
            var second := ListLocations(Reap(first.cache, now, interval), pageURL, now, fetch2, decode);
            second.requests == (if t1 < now - interval then [ListURL(pageURL)] else [])
  {
  }
}
