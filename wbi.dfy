/** WBI signing of Bilibili web API requests: the `MAGIC_KEYS` shuffle that turns the two
    WBI keys into the mixing key, the extraction of the keys from the navigation response,
    the signer's key cache, and the canonical form of the signed parameters.  MD5,
    `json.dumps`, `urllib.parse.quote` and `repr` are library functions, passed in as a
    `Library`; the navigation response and the clock are parameters. */
module Wbi {
  import opened Wrappers
  import opened Dicts
  import PyStr
  import PyValue

  /** The exceptions signing can raise. */
  datatype PyError = KeyError | TypeError | AttributeError | IndexError

  /** Library functions the signer calls and the model does not look inside. */
  datatype Library = Library(
    md5Hex: string -> string,
    jsonDumps: PyValue.Value -> string,
    quote: string -> string,
    repr: PyValue.Value -> string)

  // ---------------------------------------------------------------------------------
  // MAGIC_KEYS and _get_magic_key

  const MagicKeys: seq<nat> :=
    (([46, 47, 18, 2, 53, 8, 23, 32] + [15, 50, 10, 31, 58, 3, 45, 35]) +
     ([27, 43, 5, 49, 33, 9, 42, 19] + [29, 28, 14, 39, 12, 38, 41, 13])) +
    (([37, 48, 7, 16, 24, 55, 40, 61] + [26, 17, 0, 1, 60, 51, 30, 4]) +
     ([22, 25, 54, 21, 56, 59, 6, 63] + [57, 62, 11, 36, 20, 34, 44, 52]))

  /** Certificate that `MagicKeys` is a permutation: `MagicSlots[v]` is where `v` sits. */
  const MagicSlots: seq<nat> :=
    (([42, 43, 3, 13, 47, 18, 54, 34] + [5, 21, 10, 58, 28, 31, 26, 8]) +
     ([35, 41, 2, 23, 60, 51, 48, 6] + [36, 49, 40, 16, 25, 24, 46, 11])) +
    (([7, 20, 61, 15, 59, 32, 29, 27] + [38, 30, 22, 17, 62, 14, 0, 1]) +
     ([33, 19, 9, 45, 63, 4, 50, 37] + [52, 56, 12, 53, 44, 39, 57, 55]))

  lemma MagicSlotsInvert()
    ensures |MagicKeys| == 64 && |MagicSlots| == 64
    ensures forall i :: 0 <= i < 64 ==> MagicKeys[i] < 64 && MagicSlots[MagicKeys[i]] == i
  {
    forall i | 0 <= i < 64 ensures MagicKeys[i] < 64 && MagicSlots[MagicKeys[i]] == i {
      assert i == 0 || i == 1 || i == 2 || i == 3 || i == 4 || i == 5 || i == 6 || i == 7 || i == 8 || i == 9 || i == 10 || i == 11 || i == 12 || i == 13 || i == 14 || i == 15 || i == 16 || i == 17 || i == 18 || i == 19 || i == 20 || i == 21 || i == 22 || i == 23 || i == 24 || i == 25 || i == 26 || i == 27 || i == 28 || i == 29 || i == 30 || i == 31 || i == 32 || i == 33 || i == 34 || i == 35 || i == 36 || i == 37 || i == 38 || i == 39 || i == 40 || i == 41 || i == 42 || i == 43 || i == 44 || i == 45 || i == 46 || i == 47 || i == 48 || i == 49 || i == 50 || i == 51 || i == 52 || i == 53 || i == 54 || i == 55 || i == 56 || i == 57 || i == 58 || i == 59 || i == 60 || i == 61 || i == 62 || i == 63;
    }
  }

  lemma MagicKeysInvert()
    ensures forall v :: 0 <= v < 64 ==> MagicSlots[v] < 64 && MagicKeys[MagicSlots[v]] == v
  {
    forall v | 0 <= v < 64 ensures MagicSlots[v] < 64 && MagicKeys[MagicSlots[v]] == v {
      assert v == 0 || v == 1 || v == 2 || v == 3 || v == 4 || v == 5 || v == 6 || v == 7 || v == 8 || v == 9 || v == 10 || v == 11 || v == 12 || v == 13 || v == 14 || v == 15 || v == 16 || v == 17 || v == 18 || v == 19 || v == 20 || v == 21 || v == 22 || v == 23 || v == 24 || v == 25 || v == 26 || v == 27 || v == 28 || v == 29 || v == 30 || v == 31 || v == 32 || v == 33 || v == 34 || v == 35 || v == 36 || v == 37 || v == 38 || v == 39 || v == 40 || v == 41 || v == 42 || v == 43 || v == 44 || v == 45 || v == 46 || v == 47 || v == 48 || v == 49 || v == 50 || v == 51 || v == 52 || v == 53 || v == 54 || v == 55 || v == 56 || v == 57 || v == 58 || v == 59 || v == 60 || v == 61 || v == 62 || v == 63;
    }
  }

  /** `MAGIC_KEYS` is a permutation of 0..63: in range, pairwise distinct, and hitting
      every position. */
  lemma MagicKeysPermutation()
    ensures |MagicKeys| == 64
    ensures forall i :: 0 <= i < 64 ==> MagicKeys[i] < 64
    ensures forall i, j :: 0 <= i < j < 64 ==> MagicKeys[i] != MagicKeys[j]
    ensures forall v :: 0 <= v < 64 ==> v in MagicKeys
  {
    MagicSlotsInvert();
    MagicKeysInvert();
    forall v | 0 <= v < 64 ensures v in MagicKeys {
      assert MagicKeys[MagicSlots[v]] == v;
    }
  }

  /** `reduce(lambda s, i: s + text[i], keys, "")`; `None` when some `text[i]` raises. */
  function Pick(text: string, keys: seq<nat>): (r: Option<string>)
    ensures r.Some? <==> forall k :: 0 <= k < |keys| ==> keys[k] < |text|
    ensures r.Some? ==> |r.value| == |keys|
    ensures r.Some? ==> forall k :: 0 <= k < |keys| ==> r.value[k] == text[keys[k]]
  {
    if keys == [] then Some([])
    else
      var init, last := keys[..|keys| - 1], keys[|keys| - 1];
      match Pick(text, init)
      case None =>
        assert exists k :: 0 <= k < |init| && init[k] >= |text|;
        None
      case Some(s) =>
        if last < |text| then
          assert forall k :: 0 <= k < |init| ==> keys[k] == init[k];
          Some(s + [text[last]])
        else None
  }

  /** `_get_magic_key(text)`: defined exactly when `text` has at least 64 characters, and
      then 32 characters long, character `i` taken from position `MAGIC_KEYS[i]`. */
  function MagicKey(text: string): (r: Option<string>)
    ensures r.Some? <==> |text| >= 64
    ensures r.Some? ==> |r.value| == 32
    ensures r.Some? ==> forall i :: 0 <= i < 32 ==> r.value[i] == text[MagicKeys[i]]
  {
    MagicKeysPermutation();
    assert 63 in MagicKeys;
    match Pick(text, MagicKeys)
    case None => None
    case Some(s) => Some(PyStr.SlicePrefix(s, 32))
  }

  /** The 32 characters of the mixing key come from 32 different positions of the input. */
  lemma MagicKeyDistinctPositions(text: string, i: int, j: int)
    requires MagicKey(text).Some? && 0 <= i < j < 32
    ensures MagicKeys[i] != MagicKeys[j]
    ensures MagicKey(text).value[i] == text[MagicKeys[i]]
  {
    MagicKeysPermutation();
  }

  // ---------------------------------------------------------------------------------
  // fetch_wbi_keys: key extraction from the navigation response

  /** `s.split(c)[0]`: everything before the first `c`. */
  function BeforeFirst(s: string, c: char): (r: string)
    ensures c !in r && |r| <= |s| && r == s[..|r|]
    ensures |r| < |s| ==> s[|r|] == c
  {
    if s == [] || s[0] == c then []
    else [s[0]] + BeforeFirst(s[1..], c)
  }

  /** `s.rsplit(c, 1)[1]`: everything after the last `c`; `None` when there is no `c`, where
      the split yields one part and `[1]` raises `IndexError`. */
  function AfterLast(s: string, c: char): (r: Option<string>)
    ensures r.Some? <==> c in s
    ensures r.Some? ==> c !in r.value && |r.value| < |s|
    ensures r.Some? ==> s[|s| - |r.value| - 1] == c && s[|s| - |r.value|..] == r.value
  {
    if s == [] then None
    else
      match AfterLast(s[1..], c)
      case Some(t) => Some(t)
      case None => if s[0] == c then Some(s[1..]) else None
  }

  /** `url.rsplit("/", 1)[1].split(".")[0]`: the file name of the last path segment
      without its extension. */
  function KeyOfUrl(url: string): (r: Option<string>)
    ensures r.Some? <==> '/' in url
    ensures r.Some? ==> '/' !in r.value && '.' !in r.value
  {
    match AfterLast(url, '/')
    case None => None
    case Some(segment) => Some(BeforeFirst(segment, '.'))
  }

  lemma {:induction false} AfterLastOfParts(dir: string, segment: string)
    requires '/' !in segment
    ensures AfterLast(dir + ("/" + segment), '/') == Some(segment)
  {
    var s := dir + ("/" + segment);
    if dir == [] {
      assert s[1..] == segment;
    } else {
      assert s[1..] == dir[1..] + ("/" + segment);
      AfterLastOfParts(dir[1..], segment);
    }
  }

  lemma {:induction false} BeforeFirstOfParts(key: string, rest: string)
    requires '.' !in key && (rest == [] || rest[0] == '.')
    ensures BeforeFirst(key + rest, '.') == key
  {
    if key != [] {
      assert (key + rest)[1..] == key[1..] + rest;
      BeforeFirstOfParts(key[1..], rest);
      assert key == [key[0]] + key[1..];
    }
  }

  /** For an image URL `<dir>/<key><rest>`, where `<rest>` is empty or an extension starting
      with `.`, the extracted key is `<key>`. */
  lemma KeyOfUrlOfParts(dir: string, key: string, rest: string)
    requires '/' !in key && '.' !in key && '/' !in rest && (rest == [] || rest[0] == '.')
    ensures KeyOfUrl(dir + ("/" + (key + rest))) == Some(key)
  {
    AfterLastOfParts(dir, key + rest);
    BeforeFirstOfParts(key, rest);
  }

  /** `v[k]` on a decoded JSON value: `KeyError` for a missing key, `TypeError` for a value
      that is not a dict. */
  function Lookup(v: PyValue.Value, k: string): (r: Result<PyValue.Value, PyError>)
    ensures r.Ok? <==> v.Dict? && k in Keys(v.entries)
    ensures r.Ok? ==> Get(v.entries, k) == Some(r.value)
  {
    if !v.Dict? then Err(TypeError)
    else
      match Get(v.entries, k)
      case None => Err(KeyError)
      case Some(x) => Ok(x)
  }

  /** `data["data"]["wbi_img"]` and its `img_url` and `sub_url`, all read before any key
      is stored. */
  function WbiUrls(nav: PyValue.Value): Result<(PyValue.Value, PyValue.Value), PyError> {
    var data :- Lookup(nav, "data");
    var wbiImg :- Lookup(data, "wbi_img");
    var imgUrl :- Lookup(wbiImg, "img_url");
    var subUrl :- Lookup(wbiImg, "sub_url");
    Ok((imgUrl, subUrl))
  }

  /** The key of one URL value: `AttributeError` when it is not a string (no `rsplit`),
      `IndexError` when it has no `/`. */
  function KeyOf(url: PyValue.Value): (r: Result<string, PyError>)
    ensures r.Ok? <==> url.Str? && '/' in url.s
    ensures r.Ok? ==> KeyOfUrl(url.s) == Some(r.value)
  {
    if !url.Str? then Err(AttributeError)
    else
      match KeyOfUrl(url.s)
      case None => Err(IndexError)
      case Some(key) => Ok(key)
  }

  /** The signer's cached `img_key` and `sub_key`. */
  datatype Cache = Cache(imgKey: Option<string>, subKey: Option<string>)

  /** `fetch_wbi_keys` on the navigation response `nav`: the cache afterwards, and the keys
      returned or the exception raised.  `img_key` is stored before `sub_url` is split, so
      a bad `sub_url` leaves a new `img_key` and the old `sub_key` behind. */
  function Fetch(c: Cache, nav: PyValue.Value): (r: (Cache, Result<(string, string), PyError>))
    ensures r.1.Ok? ==> r.0 == Cache(Some(r.1.value.0), Some(r.1.value.1))
    ensures r.1.Err? ==> r.0.subKey == c.subKey
    ensures r.1.Ok? ==> '/' !in r.1.value.0 + r.1.value.1 && '.' !in r.1.value.0 + r.1.value.1
  {
    match WbiUrls(nav)
    case Err(e) => (c, Err(e))
    case Ok(urls) =>
      match KeyOf(urls.0)
      case Err(e) => (c, Err(e))
      case Ok(img) =>
        match KeyOf(urls.1)
        case Err(e) => (Cache(Some(img), c.subKey), Err(e))
        case Ok(sub) => (Cache(Some(img), Some(sub)), Ok((img, sub)))
  }

  /** A navigation response carrying two image URLs of the form `<dir>/<key>.<ext>`
      fills the cache with both keys. */
  lemma FetchStoresKeys(c: Cache, nav: PyValue.Value, imgUrl: string, subUrl: string)
    requires WbiUrls(nav) == Ok((PyValue.Value.Str(imgUrl), PyValue.Value.Str(subUrl)))
    requires '/' in imgUrl && '/' in subUrl
    ensures Fetch(c, nav).0 == Cache(KeyOfUrl(imgUrl), KeyOfUrl(subUrl))
    ensures Fetch(c, nav).1 == Ok((KeyOfUrl(imgUrl).value, KeyOfUrl(subUrl).value))
  {
  }

  // ---------------------------------------------------------------------------------
  // sign: canonical parameters

  /** `str(v)` for the values that are not dicts. */
  function StrOf(v: PyValue.Value, lib: Library): (r: string)
    ensures v.Str? ==> r == v.s
    ensures v.Int? ==> PyStr.ParseInt(r) == Some(v.i)
  {
    match v
    case None => "None"
    case Bool(b) => if b then "True" else "False"
    case Int(i) => PyStr.ParseIntOfDecimalString(i); PyStr.DecimalString(i)
    case Str(s) => s
    case _ => lib.repr(v)
  }

  /** One signed value: a dict becomes its JSON text with every space removed, anything
      else `str(v)`. */
  function Serialize(v: PyValue.Value, lib: Library): (r: string)
    ensures v.Dict? ==> ' ' !in r && |r| <= |lib.jsonDumps(v)|
    ensures !v.Dict? ==> r == StrOf(v, lib)
  {
    if v.Dict? then PyStr.RemoveChar(lib.jsonDumps(v), ' ') else StrOf(v, lib)
  }

  /** The dict comprehension that serialises every value, keeping keys and order. */
  function SerializeAll(d: Dict<string, PyValue.Value>, lib: Library): (r: Dict<string, string>)
    ensures |r| == |d|
    ensures forall i :: 0 <= i < |d| ==> r[i] == (d[i].0, Serialize(d[i].1, lib))
  {
    if d == [] then []
    else [(d[0].0, Serialize(d[0].1, lib))] + SerializeAll(d[1..], lib)
  }

  /** `urlencode(d, quote_via=quote)` */
  function Query(d: Dict<string, string>, lib: Library): string {
    PyStr.Join("&", seq(|d|, i requires 0 <= i < |d| => lib.quote(d[i].0) + "=" + lib.quote(d[i].1)))
  }

  /** `dict(params)` with `wts` assigned, then `dict(sorted(signed.items()))`. */
  function Canonical(params: Dict<string, PyValue.Value>, wts: int): Dict<string, PyValue.Value> {
    SortByKey(Set(params, "wts", PyValue.Value.Int(wts)))
  }

  /** The signed parameters: the canonical parameters serialised, then `w_rid`, the MD5 of
      their query string followed by the mixing key. */
  function SignedParams(params: Dict<string, PyValue.Value>, wts: int, magic: string, lib: Library): Dict<string, string> {
    var signed := SerializeAll(Canonical(params, wts), lib);
    Set(signed, "w_rid", lib.md5Hex(Query(signed, lib) + magic))
  }

  /** The `w_rid` of a signing. */
  function WRid(params: Dict<string, PyValue.Value>, wts: int, magic: string, lib: Library): string {
    lib.md5Hex(Query(SerializeAll(Canonical(params, wts), lib), lib) + magic)
  }

  lemma {:induction false} SerializeAllGet(d: Dict<string, PyValue.Value>, lib: Library, k: string)
    ensures Keys(SerializeAll(d, lib)) == Keys(d)
    ensures Get(SerializeAll(d, lib), k) ==
            (if k in Keys(d) then Some(Serialize(Get(d, k).value, lib)) else None)
  {
    if d != [] {
      SerializeAllGet(d[1..], lib, k);
      assert SerializeAll(d, lib)[1..] == SerializeAll(d[1..], lib);
    }
  }

  lemma CanonicalSorted(params: Dict<string, PyValue.Value>, wts: int)
    requires UniqueKeys(params)
    ensures SortedByKey(Canonical(params, wts))
  {
    SetKeepsUnique(params, "wts", PyValue.Value.Int(wts));
    SortByKeySorted(Set(params, "wts", PyValue.Value.Int(wts)));
  }

  /** The canonical parameters: the original ones with `wts` assigned. */
  lemma CanonicalGet(params: Dict<string, PyValue.Value>, wts: int, k: string)
    requires UniqueKeys(params)
    ensures Keys(Canonical(params, wts)) == Keys(params) + {"wts"}
    ensures Get(Canonical(params, wts), k) == if k == "wts" then Some(PyValue.Value.Int(wts)) else Get(params, k)
  {
    var withWts := Set(params, "wts", PyValue.Value.Int(wts));
    SetKeepsUnique(params, "wts", PyValue.Value.Int(wts));
    SortByKeyGet(withWts, k);
  }

  /** The serialised canonical parameters: every key of the original ones and `wts`, each
      value serialised. */
  lemma SerializedGet(params: Dict<string, PyValue.Value>, wts: int, lib: Library, k: string)
    requires UniqueKeys(params)
    ensures Keys(SerializeAll(Canonical(params, wts), lib)) == Keys(params) + {"wts"}
    ensures Get(SerializeAll(Canonical(params, wts), lib), k) ==
      if k == "wts" then Some(StrOf(PyValue.Value.Int(wts), lib))
      else if k in Keys(params) then Some(Serialize(Get(params, k).value, lib))
      else None
  {
    CanonicalGet(params, wts, k);
    SerializeAllGet(Canonical(params, wts), lib, k);
  }

  /** The signed parameters hold every original key plus `wts` and `w_rid`; `wts` reads back
      as the timestamp used, `w_rid` is the signature, and every other value is the
      serialised original value. */
  lemma SignedContents(params: Dict<string, PyValue.Value>, wts: int, magic: string, lib: Library, k: string)
    requires UniqueKeys(params)
    ensures Keys(SignedParams(params, wts, magic, lib)) == Keys(params) + {"wts", "w_rid"}
    ensures Get(SignedParams(params, wts, magic, lib), "w_rid") == Some(WRid(params, wts, magic, lib))
    ensures PyStr.ParseInt(Get(SignedParams(params, wts, magic, lib), "wts").value) == Some(wts)
    ensures k != "wts" && k != "w_rid" ==>
      Get(SignedParams(params, wts, magic, lib), k) ==
      (if k in Keys(params) then Some(Serialize(Get(params, k).value, lib)) else None)
  {
    SerializedGet(params, wts, lib, k);
    SerializedGet(params, wts, lib, "wts");
  }

  /** With no `w_rid` among the original keys, the signed parameters are the sorted
      serialised parameters followed by `w_rid` last. */
  lemma SignedOrder(params: Dict<string, PyValue.Value>, wts: int, magic: string, lib: Library)
    requires UniqueKeys(params) && "w_rid" !in Keys(params)
    ensures var r := SignedParams(params, wts, magic, lib);
      |r| == |Canonical(params, wts)| + 1 &&
      SortedByKey(r[..|r| - 1]) && r[|r| - 1] == ("w_rid", WRid(params, wts, magic, lib))
  {
    CanonicalSorted(params, wts);
    var signed := SerializeAll(Canonical(params, wts), lib);
    SerializedGet(params, wts, lib, "w_rid");
    var r := SignedParams(params, wts, magic, lib);
    assert r[..|r| - 1] == signed;
  }

  /** Signing does not depend on the insertion order of the parameters. */
  lemma SignOrderIndependent(p1: Dict<string, PyValue.Value>, p2: Dict<string, PyValue.Value>, wts: int, magic: string, lib: Library)
    requires UniqueKeys(p1) && UniqueKeys(p2) && multiset(p1) == multiset(p2)
    ensures SignedParams(p1, wts, magic, lib) == SignedParams(p2, wts, magic, lib)
  {
    var w := PyValue.Value.Int(wts);
    var s1, s2 := Set(p1, "wts", w), Set(p2, "wts", w);
    SetKeepsUnique(p1, "wts", w);
    SetKeepsUnique(p2, "wts", w);
    SortByKeySorted(s1);
    SortByKeySorted(s2);
    forall x ensures x in SortByKey(s1) <==> x in SortByKey(s2) {
      SortByKeyMembers(s1, x);
      SortByKeyMembers(s2, x);
      SetMembers(p1, "wts", w, x);
      SetMembers(p2, "wts", w, x);
      assert (x in p1) == (x in multiset(p1)) && (x in p2) == (x in multiset(p2));
    }
    SortedSameMembers(SortByKey(s1), SortByKey(s2));
  }

  // ---------------------------------------------------------------------------------
  // sign with the key cache

  /** `sign(params, wts)`: fetch the keys when either is missing, build the mixing key from
      `img_key + sub_key`, and sign with `wts`, or with `now` (the rounded clock) when no
      `wts` is given.  Returns the cache afterwards and the signed parameters or the
      exception raised. */
  function SignSpec(c: Cache, params: Dict<string, PyValue.Value>, wts: Option<int>, now: int,
                    nav: PyValue.Value, lib: Library): (Cache, Result<Dict<string, string>, PyError>)
  {
    var fetched :=
      if c.imgKey.None? || c.subKey.None? then Fetch(c, nav)
      else (c, Ok((c.imgKey.value, c.subKey.value)));
    match fetched.1
    case Err(e) => (fetched.0, Err(e))
    case Ok(keys) =>
      match MagicKey(keys.0 + keys.1)
      case None => (fetched.0, Err(IndexError))
      case Some(magic) => (fetched.0, Ok(SignedParams(params, wts.GetOr(now), magic, lib)))
  }

  /** With both keys cached, signing keeps the cache and never looks at the navigation
      response. */
  lemma SignUsesCache(c: Cache, params: Dict<string, PyValue.Value>, wts: Option<int>, now: int,
                      nav1: PyValue.Value, nav2: PyValue.Value, lib: Library)
    requires c.imgKey.Some? && c.subKey.Some?
    ensures SignSpec(c, params, wts, now, nav1, lib).0 == c
    ensures SignSpec(c, params, wts, now, nav1, lib) == SignSpec(c, params, wts, now, nav2, lib)
  {
  }

  /** With a key missing, signing fetches first and leaves the cache `fetch_wbi_keys`
      leaves. */
  lemma SignFetchesMissing(c: Cache, params: Dict<string, PyValue.Value>, wts: Option<int>, now: int,
                           nav: PyValue.Value, lib: Library)
    requires c.imgKey.None? || c.subKey.None?
    ensures SignSpec(c, params, wts, now, nav, lib).0 == Fetch(c, nav).0
    ensures Fetch(c, nav).1.Err? ==> SignSpec(c, params, wts, now, nav, lib).1 == Err(Fetch(c, nav).1.error)
  {
  }

  /** Signing twice with the same parameters and a fixed `wts` gives the same result, the
      clock and the second navigation response notwithstanding. */
  lemma SignReproducible(c: Cache, params: Dict<string, PyValue.Value>, wts: int, now1: int, now2: int,
                         nav1: PyValue.Value, nav2: PyValue.Value, lib: Library)
    requires SignSpec(c, params, Some(wts), now1, nav1, lib).1.Ok?
    ensures var first := SignSpec(c, params, Some(wts), now1, nav1, lib);
      SignSpec(first.0, params, Some(wts), now2, nav2, lib) == first
  {
    var first := SignSpec(c, params, Some(wts), now1, nav1, lib);
    if c.imgKey.None? || c.subKey.None? {
      assert first.0 == Fetch(c, nav1).0;
    }
  }

  class WbiSigner {
    var imgKey: Option<string>
    var subKey: Option<string>

    /** A new signer has no keys cached. */
    constructor ()
      ensures imgKey == None && subKey == None
    {
      imgKey := None;
      subKey := None;
    }

    function State(): Cache
      reads this
    {
      Cache(imgKey, subKey)
    }

    /** `fetch_wbi_keys`, given the decoded navigation response. */
    method FetchWbiKeys(nav: PyValue.Value) returns (r: Result<(string, string), PyError>)
      modifies this
      ensures (State(), r) == Fetch(old(State()), nav)
    {
      var urls := WbiUrls(nav);
      if urls.Err? {
        return Err(urls.error);
      }
      var img := KeyOf(urls.value.0);
      if img.Err? {
        return Err(img.error);
      }
      imgKey := Some(img.value);
      var sub := KeyOf(urls.value.1);
      if sub.Err? {
        return Err(sub.error);
      }
      subKey := Some(sub.value);
      r := Ok((img.value, sub.value));
    }

    /** `sign(params, wts)`, given the rounded clock `now` and the navigation response a
        fetch would receive. */
    method Sign(params: Dict<string, PyValue.Value>, wts: Option<int>, now: int, nav: PyValue.Value, lib: Library)
      returns (r: Result<Dict<string, string>, PyError>)
      modifies this
      ensures (State(), r) == SignSpec(old(State()), params, wts, now, nav, lib)
    {
      if imgKey.None? || subKey.None? {
        var fetched := FetchWbiKeys(nav);
        if fetched.Err? {
          return Err(fetched.error);
        }
      }
      var magic := MagicKey(imgKey.value + subKey.value);
      if magic.None? {
        return Err(IndexError);
      }
      var stamp := if wts.Some? then wts.value else now;
      r := Ok(SignedParams(params, stamp, magic.value, lib));
    }
  }
}
