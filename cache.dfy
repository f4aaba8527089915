/** The read-through `Cache` of si507_waiver.py: a table from request URL to
    raw response body, loaded once from a JSON backing file, filled from the
    network on a miss, and written back whole after every insertion.

    The network and the backing file are outside the program: the network is
    a `Network` parameter, and the file's content is a ghost `Option<Table>`
    (None when the file is missing or cannot be parsed). A ghost log records
    every GET sent. */
module Caching {
  import opened Wrappers

  /** Request URL to raw response body. */
  type Table = map<string, string>

  /** `requests.get(url).text` as seen by the cache: the response body,
      whatever its status code, or None when the transport fails and the
      call raises. */
  type Network = string -> Option<string>

  /** Everything the cache affects: its in-memory table, the content of its
      backing file, and the GETs it has sent, in order. */
  datatype Store = Store(entries: Table, file: Option<Table>, fetches: seq<string>)

  /** The state after a `read`, and the body it returns (None: it raised). */
  datatype ReadOutcome = ReadOutcome(store: Store, body: Option<string>)

  /** Every key of `t` is kept in `t'` with its value. */
  predicate Extends(t: Table, t': Table) {
    forall k :: k in t ==> k in t' && t'[k] == t[k]
  }

  /** Construction: the table is whatever the backing file held, or empty
      when the file could not be loaded; the file itself is left as it was
      and nothing has been fetched. */
  function OpenStore(loaded: Option<Table>): (s: Store)
    ensures loaded.None? ==> s.entries == map[]
    ensures loaded.Some? ==> s.entries == loaded.value
    ensures s.file == loaded && s.fetches == []
  {
    Store(loaded.GetOr(map[]), loaded, [])
  }

  /** Reopening the backing file gives back the in-memory table. */
  predicate Coherent(s: Store) {
    OpenStore(s.file).entries == s.entries
  }

  /** `Cache.write`: `url` now maps to `data`, every other key keeps its
      value, no key is lost, and the backing file holds the entire new
      table. */
  function WriteStore(s: Store, url: string, data: string): (r: Store)
    ensures url in r.entries && r.entries[url] == data
    ensures r.entries.Keys == s.entries.Keys + {url}
    ensures forall k :: k in s.entries && k != url ==> r.entries[k] == s.entries[k]
    ensures r.file == Some(r.entries)
    ensures r.fetches == s.fetches
  {
    var t := s.entries[url := data];
    Store(t, Some(t), s.fetches)
  }

  /** `Cache.read`. On a hit: the stored body, no GET, nothing changes. On a
      miss: exactly one GET of `url`, and the result is what the network
      gave; if it gave a body, that body is now stored under `url`, nothing
      else changes in the table, and the file holds the whole table; if the
      transport failed, neither the table nor the file changes. */
  function ReadStore(s: Store, url: string, net: Network): (r: ReadOutcome)
    ensures url in s.entries ==> r.store == s && r.body == Some(s.entries[url])
    ensures url !in s.entries ==> r.store.fetches == s.fetches + [url] && r.body == net(url)
    ensures url !in s.entries && r.body.Some? ==>
      && r.store.entries == s.entries[url := r.body.value]
      && r.store.file == Some(r.store.entries)
    ensures url !in s.entries && r.body.None? ==> r.store.entries == s.entries && r.store.file == s.file
  {
    if url in s.entries then ReadOutcome(s, Some(s.entries[url]))
    else
      var attempted := s.(fetches := s.fetches + [url]);
      match net(url)
      case None => ReadOutcome(attempted, None)
      case Some(data) => ReadOutcome(WriteStore(attempted, url, data), Some(data))
  }

  /** A read loses no stored entry, and a body it returns is the one now
      stored under its URL. */
  lemma ReadOnlyAdds(s: Store, url: string, net: Network)
    ensures var r := ReadStore(s, url, net);
      && Extends(s.entries, r.store.entries)
      && (r.body.Some? ==> url in r.store.entries && r.store.entries[url] == r.body.value)
  {
  }

  /** A newly opened store is coherent, whether or not its file loaded. */
  lemma OpenIsCoherent(loaded: Option<Table>)
    ensures Coherent(OpenStore(loaded))
  {
  }

  /** Reading keeps the backing file in step with the table. */
  lemma ReadKeepsCoherent(s: Store, url: string, net: Network)
    requires Coherent(s)
    ensures Coherent(ReadStore(s, url, net).store)
  {
  }

  /** Once a read has returned a body, every later read of the same URL
      returns that body, sends no GET and changes nothing, whatever the
      network would now answer. */
  lemma ReadTwiceFetchesOnce(s: Store, url: string, net: Network, later: Network)
    requires ReadStore(s, url, net).body.Some?
    ensures var first := ReadStore(s, url, net);
      ReadStore(first.store, url, later) == first
  {
  }

  /** Durability: after a read that returned a body, a cache reopened from
      the backing file serves the same body with no GET. */
  lemma ReopenedCacheServesReadBody(s: Store, url: string, net: Network, later: Network)
    requires Coherent(s)
    requires ReadStore(s, url, net).body.Some?
    ensures var first := ReadStore(s, url, net);
      var again := ReadStore(OpenStore(first.store.file), url, later);
      again.body == first.body && again.store.fetches == []
  {
    ReadKeepsCoherent(s, url, net);
  }

  /** A sequence of reads in one session; a transport failure raises and
      ends the session, so no read after it takes place. */
  function ReadAll(s: Store, urls: seq<string>, net: Network): (r: Store)
    ensures |s.fetches| <= |r.fetches| <= |s.fetches| + |urls|
    decreases |urls|
  {
    if urls == [] then s
    else
      var first := ReadStore(s, urls[0], net);
      if first.body.None? then first.store else ReadAll(first.store, urls[1..], net)
  }

  /** A session of reads, whether or not it fails, loses no stored entry
      and only appends to the log of GETs. */
  lemma {:induction false} ReadAllOnlyGrows(s: Store, urls: seq<string>, net: Network)
    ensures var r := ReadAll(s, urls, net);
      && Extends(s.entries, r.entries)
      && |s.fetches| <= |r.fetches| && r.fetches[..|s.fetches|] == s.fetches
    decreases |urls|
  {
    if urls != [] {
      var first := ReadStore(s, urls[0], net);
      if first.body.Some? {
        ReadAllOnlyGrows(first.store, urls[1..], net);
      }
    }
  }

  predicate NoDuplicates(xs: seq<string>) {
    forall i, j :: 0 <= i < j < |xs| ==> xs[i] != xs[j]
  }

  /** The URLs of `urls` that are not in `stored`, each at its first
      occurrence: the GETs a read-through cache holding `stored` should
      send. None of them was stored and no URL appears twice. */
  function FirstMisses(stored: set<string>, urls: seq<string>): seq<string>
    decreases |urls|
  {
    if urls == [] then []
    else if urls[0] in stored then FirstMisses(stored, urls[1..])
    else [urls[0]] + FirstMisses(stored + {urls[0]}, urls[1..])
  }

  /** The GETs of `FirstMisses` are exactly for the URLs that were read and
      not stored, and none is repeated. */
  lemma {:induction false} FirstMissesAreNew(stored: set<string>, urls: seq<string>)
    ensures var r := FirstMisses(stored, urls);
      && (forall k :: 0 <= k < |r| ==> r[k] !in stored && r[k] in urls)
      && (forall u :: u in urls && u !in stored ==> u in r)
      && NoDuplicates(r)
    decreases |urls|
  {
    if urls != [] {
      var u, rest := urls[0], urls[1..];
      if u in stored {
        FirstMissesAreNew(stored, rest);
      } else {
        FirstMissesAreNew(stored + {u}, rest);
      }
    }
  }

  /** The network answers every URL of `urls`. */
  predicate Delivers(net: Network, urls: seq<string>) {
    forall i :: 0 <= i < |urls| ==> net(urls[i]).Some?
  }

  /** At most one GET per key: while the network delivers, a session of
      reads sends exactly the GETs of `FirstMisses`, so no URL that was
      stored is fetched, and no URL is fetched twice. */
  lemma {:induction false} ReadAllFetchesFirstMisses(s: Store, urls: seq<string>, net: Network)
    requires Delivers(net, urls)
    ensures ReadAll(s, urls, net).fetches == s.fetches + FirstMisses(s.entries.Keys, urls)
    decreases |urls|
  {
    if urls != [] {
      var s1 := ReadStore(s, urls[0], net).store;
      FirstReadOfSession(s, urls, net);
      ReadAllFetchesFirstMisses(s1, urls[1..], net);
    }
  }

  /** The first read of a delivering session: the rest of the session
      starts from its state, and it sends a GET exactly when `FirstMisses`
      starts with its URL. */
  lemma FirstReadOfSession(s: Store, urls: seq<string>, net: Network)
    requires urls != [] && Delivers(net, urls)
    ensures var u := urls[0];
      var s1 := ReadStore(s, u, net).store;
      var sent := if u in s.entries then [] else [u];
      && Delivers(net, urls[1..])
      && ReadAll(s, urls, net) == ReadAll(s1, urls[1..], net)
      && s1.fetches == s.fetches + sent
      && FirstMisses(s.entries.Keys, urls) == sent + FirstMisses(s1.entries.Keys, urls[1..])
  {
    var u := urls[0];
    if u !in s.entries {
      assert ReadStore(s, u, net).store.entries.Keys == s.entries.Keys + {u};
    }
  }

  /** While the network delivers, a session of reads adds exactly the URLs
      read to the table's keys. */
  lemma {:induction false} ReadAllStoresEveryUrl(s: Store, urls: seq<string>, net: Network)
    requires Delivers(net, urls)
    ensures ReadAll(s, urls, net).entries.Keys == s.entries.Keys + (set u | u in urls)
    decreases |urls|
  {
    if urls != [] {
      var u, rest := urls[0], urls[1..];
      var s1 := DeliveredReadKeys(s, u, net);
      assert ReadAll(s, urls, net) == ReadAll(s1, rest, net);
      assert Delivers(net, rest) by {
        forall i | 0 <= i < |rest| ensures net(rest[i]).Some? {
          assert rest[i] == urls[i + 1];
        }
      }
      ReadAllStoresEveryUrl(s1, rest, net);
      assert (set v | v in urls) == {u} + (set v | v in rest) by {
        assert urls == [u] + rest;
      }
    }
  }

  /** One read the network answers adds exactly its URL to the keys. */
  lemma DeliveredReadKeys(s: Store, u: string, net: Network) returns (s1: Store)
    requires net(u).Some?
    ensures s1 == ReadStore(s, u, net).store
    ensures ReadStore(s, u, net).body.Some?
    ensures s1.entries.Keys == s.entries.Keys + {u}
  {
    s1 := ReadStore(s, u, net).store;
  }

  /** While the network delivers, a session of reads stores under each URL
      that was not already there the body the network gave for it. */
  lemma {:induction false} ReadAllStoresFetchedBodies(s: Store, urls: seq<string>, net: Network)
    requires Delivers(net, urls)
    ensures var r := ReadAll(s, urls, net);
      forall u :: u in urls && u !in s.entries ==> u in r.entries && r.entries[u] == net(u).value
    decreases |urls|
  {
    if urls != [] {
      var u, rest := urls[0], urls[1..];
      var s1 := ReadStore(s, u, net).store;
      var r := ReadAll(s1, rest, net);
      assert ReadAll(s, urls, net) == r;
      ReadAllStoresFetchedBodies(s1, rest, net);
      ReadAllOnlyGrows(s1, rest, net);
      forall v | v in urls && v !in s.entries
        ensures v in r.entries && r.entries[v] == net(v).value
      {
        if v == u {
          assert s1.entries[u] == net(u).value;
        } else {
          assert v in rest && v !in s1.entries;
        }
      }
    }
  }

  /** Writes of key/value pairs, one `Cache.write` each. */
  function WriteAll(s: Store, pairs: seq<(string, string)>): Store
    decreases |pairs|
  {
    if pairs == [] then s else WriteAll(WriteStore(s, pairs[0].0, pairs[0].1), pairs[1..])
  }

  /** Whole-table persistence: N writes of distinct new keys leave a backing
      file holding the earlier table plus exactly those N entries. */
  lemma {:induction false} WriteAllPersists(s: Store, pairs: seq<(string, string)>)
    requires pairs != []
    requires forall i :: 0 <= i < |pairs| ==> pairs[i].0 !in s.entries
    requires forall i, j :: 0 <= i < j < |pairs| ==> pairs[i].0 != pairs[j].0
    ensures var file := WriteAll(s, pairs).file;
      && file.Some?
      && |file.value| == |s.entries| + |pairs|
      && Extends(s.entries, file.value)
      && forall i :: 0 <= i < |pairs| ==> pairs[i].0 in file.value && file.value[pairs[i].0] == pairs[i].1
    decreases |pairs|
  {
    var (k, v) := pairs[0];
    var s1 := WriteStore(s, k, v);
    assert |s1.entries| == |s.entries| + 1 by {
      assert s1.entries.Keys == s.entries.Keys + {k};
    }
    var rest := pairs[1..];
    assert WriteAll(s, pairs) == WriteAll(s1, rest);
    if rest == [] {
      assert WriteAll(s1, rest) == s1;
    } else {
      forall i | 0 <= i < |rest| ensures rest[i].0 !in s1.entries {
        assert rest[i] == pairs[i + 1];
      }
      forall i, j | 0 <= i < j < |rest| ensures rest[i].0 != rest[j].0 {
        assert rest[i] == pairs[i + 1] && rest[j] == pairs[j + 1];
      }
      WriteAllPersists(s1, rest);
      var file := WriteAll(s1, rest).file.value;
      ExtendsTransitive(s.entries, s1.entries, file);
      forall i | 0 <= i < |pairs| ensures pairs[i].0 in file && file[pairs[i].0] == pairs[i].1 {
        if i > 0 {
          assert pairs[i] == rest[i - 1];
        }
      }
    }
  }

  lemma ExtendsTransitive(t1: Table, t2: Table, t3: Table)
    requires Extends(t1, t2) && Extends(t2, t3)
    ensures Extends(t1, t3)
  {
  }

  /** A fresh store whose backing file was missing then gets N writes of
      distinct keys: reloading its file gives exactly those N entries. */
  lemma WritesFromNothingReload(pairs: seq<(string, string)>)
    requires forall i, j :: 0 <= i < j < |pairs| ==> pairs[i].0 != pairs[j].0
    ensures var reloaded := OpenStore(WriteAll(OpenStore(None), pairs).file).entries;
      && |reloaded| == |pairs|
      && forall i :: 0 <= i < |pairs| ==> pairs[i].0 in reloaded && reloaded[pairs[i].0] == pairs[i].1
  {
    if pairs != [] {
      WriteAllPersists(OpenStore(None), pairs);
    }
  }

  /** A fresh cache over a missing file reads a URL once from the network,
      persists it, and serves the second read from memory. */
  lemma FirstReadFetchesSecondHits(net: Network, later: Network)
    requires net("https://a.example/x") == Some("BODY1")
    ensures var url := "https://a.example/x";
      var first := ReadStore(OpenStore(None), url, net);
      var second := ReadStore(first.store, url, later);
      && first.body == Some("BODY1")
      && first.store.fetches == [url]
      && first.store.file == Some(map[url := "BODY1"])
      && second.body == Some("BODY1")
      && second.store.fetches == [url]
  {
  }

  /** The `Cache` object: its table is a field that reads and writes update
      in place. */
  class Cache {
    const filename: string
    var cacheDict: Table
    ghost var file: Option<Table>
    ghost var fetches: seq<string>

    ghost function State(): Store
      reads this
    {
      Store(cacheDict, file, fetches)
    }

    /** Never fails: an unusable backing file means an empty table. */
    constructor (filename: string, loaded: Option<Table>)
      ensures this.filename == filename
      ensures State() == OpenStore(loaded)
      ensures loaded.Some? ==> cacheDict == loaded.value
      ensures loaded.None? ==> cacheDict == map[]
      ensures Coherent(State())
    {
      this.filename := filename;
      match loaded {
        case Some(t) => cacheDict := t;
        case None => cacheDict := map[];
      }
      file := loaded;
      fetches := [];
    }

    method Read(url: string, net: Network) returns (data: Option<string>)
      modifies this
      ensures ReadOutcome(State(), data) == ReadStore(old(State()), url, net)
      ensures url in old(cacheDict) ==> data == Some(old(cacheDict)[url]) && unchanged(this)
      ensures url !in old(cacheDict) ==> data == net(url) && fetches == old(fetches) + [url]
      ensures data.Some? ==> url in cacheDict && cacheDict[url] == data.value
    {
      if url in cacheDict {
        data := Some(cacheDict[url]);
      } else {
        fetches := fetches + [url];
        data := net(url);
        if data.Some? {
          Write(url, data.value);
        }
      }
    }

    method Write(url: string, data: string)
      modifies this
      ensures State() == WriteStore(old(State()), url, data)
      ensures cacheDict == old(cacheDict)[url := data]
      ensures file == Some(cacheDict) && fetches == old(fetches)
    {
      cacheDict := cacheDict[url := data];
      file := Some(cacheDict);
    }
  }
}
