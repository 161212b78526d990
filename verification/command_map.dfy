/** The pagination commands of command_map.go: `map` (`commandMapf`) and
    `mapb` (`commandMapb`), as transitions of the REPL's `config`. */
module CommandMap {
  import opened Wrappers
  import opened PokeCache
  import opened PokeApi

  /** `config`: the client's cache and the two listing cursors. */
  datatype Config = Config(cache: Cache, next: Option<string>, prev: Option<string>)

  /** The result of one command: the new config, the error returned (if any),
      the lines printed, and the URLs requested from the network. */
  datatype Step = Step(cfg: Config, err: Option<Error>, printed: seq<string>, requests: seq<string>)

  /** The message `mapb` returns on the first page. */
  const FirstPageMessage: string := "you're on the first page"

  /** The location names of a page, in listing order. */
  function Names(results: seq<NamedLocation>): (names: seq<string>)
    ensures |names| == |results|
    ensures forall i :: 0 <= i < |results| ==> names[i] == results[i].name
  {
    seq(|results|, i requires 0 <= i < |results| => results[i].name)
  }

  /** The shared tail of both commands: list the page at `pageURL`; on an error
      return it and keep the cursors; otherwise move both cursors to the
      page's links and print the page's names. */
  function ShowPage(cfg: Config, pageURL: Option<string>, now: Time, fetch: Fetcher,
                    decode: Decoder<RespShallowLocations>): (s: Step)
    ensures var call := ListLocations(cfg.cache, pageURL, now, fetch, decode);
            && s.err == call.err
            && s.requests == call.requests
            && (call.err.None? ==> s.cfg == Config(call.cache, call.value.next, call.value.previous)
                                   && s.printed == Names(call.value.results))
    ensures s.requests <= [ListURL(pageURL)]
    ensures s.err.Some? ==> s.cfg == cfg && s.printed == []
    ensures s.err.None? ==>
              && ListURL(pageURL) in s.cfg.cache
              && decode(s.cfg.cache[ListURL(pageURL)].val).Success?
              && var page := decode(s.cfg.cache[ListURL(pageURL)].val).value;
                 && s.cfg.next == page.next
                 && s.cfg.prev == page.previous
                 && s.printed == Names(page.results)
  {
    var call := ListLocations(cfg.cache, pageURL, now, fetch, decode);
    match call.err
    case Some(e) => Step(cfg, Some(e), [], call.requests)
    case None =>
      Step(Config(call.cache, call.value.next, call.value.previous), None, Names(call.value.results), call.requests)
  }

  /** `commandMapf`: show the page the `next` cursor names (the first page
      when there is none). */
  function Mapf(cfg: Config, now: Time, fetch: Fetcher, decode: Decoder<RespShallowLocations>): (s: Step)
    ensures var call := ListLocations(cfg.cache, cfg.next, now, fetch, decode);
            && s.err == call.err
            && s.requests == call.requests
            && (call.err.None? ==> s.cfg == Config(call.cache, call.value.next, call.value.previous)
                                   && s.printed == Names(call.value.results))
    ensures s.requests <= [ListURL(cfg.next)]
    ensures ListURL(cfg.next) in cfg.cache ==> s.requests == [] && s.cfg.cache == cfg.cache
    ensures s.err.Some? ==> s.cfg == cfg && s.printed == []
    ensures s.err.None? ==>
              && ListURL(cfg.next) in s.cfg.cache
              && decode(s.cfg.cache[ListURL(cfg.next)].val).Success?
              && var page := decode(s.cfg.cache[ListURL(cfg.next)].val).value;
                 && s.cfg.next == page.next
                 && s.cfg.prev == page.previous
                 && s.printed == Names(page.results)
  {
    ShowPage(cfg, cfg.next, now, fetch, decode)
  }

  /** `commandMapb`: refuse on the first page; otherwise show the page the
      `prev` cursor names. */
  function Mapb(cfg: Config, now: Time, fetch: Fetcher, decode: Decoder<RespShallowLocations>): (s: Step)
    ensures cfg.prev.None? ==> s == Step(cfg, Some(Error(FirstPageMessage)), [], [])
    ensures cfg.prev.Some? ==>
              var call := ListLocations(cfg.cache, cfg.prev, now, fetch, decode);
              && s.err == call.err
              && s.requests == call.requests
              && (call.err.None? ==> s.cfg == Config(call.cache, call.value.next, call.value.previous)
                                     && s.printed == Names(call.value.results))
    ensures cfg.prev.Some? ==> s.requests <= [cfg.prev.value]
    ensures cfg.prev.Some? && cfg.prev.value in cfg.cache ==> s.requests == [] && s.cfg.cache == cfg.cache
    ensures s.err.Some? ==> s.cfg == cfg && s.printed == []
    ensures s.err.None? ==>
              && cfg.prev.Some?
              && cfg.prev.value in s.cfg.cache
              && decode(s.cfg.cache[cfg.prev.value].val).Success?
              && var page := decode(s.cfg.cache[cfg.prev.value].val).value;
                 && s.cfg.next == page.next
                 && s.cfg.prev == page.previous
                 && s.printed == Names(page.results)
  {
    match cfg.prev
    case None => Step(cfg, Some(Error(FirstPageMessage)), [], [])
    case Some(_) => ShowPage(cfg, cfg.prev, now, fetch, decode)
  }

  /** When `map` succeeds and lands on a page whose previous link was already
      cached before the step, the following `mapb` makes no request and leaves
      the cache as it was. */
  lemma ForwardThenBackIsCached(cfg: Config, t1: Time, t2: Time, fetch1: Fetcher, fetch2: Fetcher,
                                decode: Decoder<RespShallowLocations>)
    requires var forward := Mapf(cfg, t1, fetch1, decode);
             forward.err.None? && forward.cfg.prev.Some? && forward.cfg.prev.value in cfg.cache
    ensures var forward := Mapf(cfg, t1, fetch1, decode);
            var back := Mapb(forward.cfg, t2, fetch2, decode);
            && back.requests == []
            && back.cfg.cache == forward.cfg.cache
  {
    var forward := Mapf(cfg, t1, fetch1, decode);
    assert forward.cfg.cache.Keys == cfg.cache.Keys + {ListURL(cfg.next)};
  }

  /** Two `mapb` calls on the first page are both refused and change nothing:
      the refusal is a fixed point. */
  lemma MapbOnFirstPageIsStuck(cfg: Config, t1: Time, t2: Time, fetch: Fetcher,
                               decode: Decoder<RespShallowLocations>)
    requires cfg.prev.None?
    ensures Mapb(Mapb(cfg, t1, fetch, decode).cfg, t2, fetch, decode) == Mapb(cfg, t1, fetch, decode)
  {
  }
}
