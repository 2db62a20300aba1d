/** The non-network logic of the search client: HTML-tag stripping and lenient integer
    conversion for the fields of the decoded results, the dispatch of result groups to their
    item types, the two result containers, and the request parameters of a typed search. */
module Search {
  import opened Wrappers
  import opened Dicts
  import PyStr
  import PyValue

  // ---------------------------------------------------------------------------------------
  // strip_html_tags: re.sub(r"<[^>]+>", "", text)
  // ---------------------------------------------------------------------------------------

  /** Whether the pattern `<[^>]+>` matches at `s[i]`: a `<`, then a character other than
      `>`, and a `>` somewhere after that.  The match then ends at the first `>` after `i`. */
  predicate TagAt(s: string, i: nat) {
    i + 1 < |s| && s[i] == '<' && s[i + 1] != '>' && '>' in s[i + 2..]
  }

  predicate ContainsTag(s: string) {
    exists i :: 0 <= i < |s| && TagAt(s, i)
  }

  /** `s.find(c)`, with `|s|` for "absent". */
  function IndexOf(s: string, c: char): (k: nat)
    ensures k <= |s|
    ensures k < |s| ==> s[k] == c
    ensures k == |s| ==> c !in s
    ensures forall j :: 0 <= j < k ==> s[j] != c
  {
    if s == [] then 0 else if s[0] == c then 0 else 1 + IndexOf(s[1..], c)
  }

  /** Where the tag starting at `s[0]` ends: the first `>` after the `<`. */
  function TagEnd(s: string): (j: nat)
    requires TagAt(s, 0)
    ensures 2 <= j < |s| && s[j] == '>'
    ensures forall k :: 0 < k < j ==> s[k] != '>'
  {
    var j := 1 + IndexOf(s[1..], '>');
    assert s[1..][1..] == s[2..];
    j
  }

  /** The regular-expression substitution: scanning from the left, every match of
      `<[^>]+>` is deleted and every other character is kept. */
  function StripTags(s: string): (r: string)
    ensures |r| <= |s|
    decreases |s|
  {
    if s == [] then []
    else if TagAt(s, 0) then StripTags(s[TagEnd(s) + 1..])
    else [s[0]] + StripTags(s[1..])
  }

  /** `strip_html_tags(text)`: a falsy text (`None` or "") is returned as it is. */
  function StripHtmlTags(text: Option<string>): (r: Option<string>)
    ensures text.None? ==> r.None?
    ensures text == Some([]) ==> r == text
    ensures text.Some? ==> r.Some? && |r.value| <= |text.value| && !ContainsTag(r.value)
  {
    match text
    case None => None
    case Some(t) =>
      if t == [] then text
      else
        NoTagAfterStrip(t);
        Some(StripTags(t))
  }

  /** Shifting the scan by one character. */
  lemma TagAtTail(s: string, i: nat)
    requires s != []
    ensures TagAt(s[1..], i) <==> TagAt(s, i + 1)
  {
    if i + 2 < |s| {
      assert s[1..][i + 2..] == s[i + 3..];
    }
  }

  /** A character absent from the text is absent from the result. */
  lemma {:induction false} StripKeepsOut(s: string, c: char)
    requires c !in s
    ensures c !in StripTags(s)
    decreases |s|
  {
    if s != [] {
      if TagAt(s, 0) {
        StripKeepsOut(s[TagEnd(s) + 1..], c);
      } else {
        StripKeepsOut(s[1..], c);
      }
    }
  }

  /** No tag is left in the result. */
  lemma {:induction false} NoTagAfterStrip(s: string)
    ensures !ContainsTag(StripTags(s))
    decreases |s|
  {
    if s != [] {
      if TagAt(s, 0) {
        NoTagAfterStrip(s[TagEnd(s) + 1..]);
      } else {
        var t := StripTags(s[1..]);
        var r := [s[0]] + t;
        assert StripTags(s) == r;
        NoTagAfterStrip(s[1..]);
        forall i | 0 <= i < |r| ensures !TagAt(r, i) {
          if i > 0 {
            assert r[1..] == t;
            TagAtTail(r, i - 1);
          } else if s[0] == '<' && |r| > 2 {
            if s[1] == '>' {
              assert !TagAt(s[1..], 0);
              assert t == [s[1]] + StripTags(s[2..]);
              assert r[1] == '>';
            } else {
              assert '>' !in s[1..] by {
                assert s[1..] == [s[1]] + s[2..];
              }
              StripKeepsOut(s[1..], '>');
              assert r[2..] == t[1..];
            }
          }
        }
      }
    }
  }

  /** A text without tags is left as it is. */
  lemma {:induction false} StripTagFree(s: string)
    requires !ContainsTag(s)
    ensures StripTags(s) == s
    decreases |s|
  {
    if s != [] {
      assert !TagAt(s, 0);
      forall i | 0 <= i < |s| - 1 ensures !TagAt(s[1..], i) {
        TagAtTail(s, i);
      }
      StripTagFree(s[1..]);
    }
  }

  /** Stripping twice is stripping once. */
  lemma StripIdempotent(s: string)
    ensures StripTags(StripTags(s)) == StripTags(s)
  {
    NoTagAfterStrip(s);
    StripTagFree(StripTags(s));
  }

  /** `a` is obtained from `b` by deleting elements. */
  predicate IsSubsequence<T(==)>(a: seq<T>, b: seq<T>)
    decreases |b|
  {
    if a == [] then true
    else if b == [] then false
    else if a[0] == b[0] then IsSubsequence(a[1..], b[1..])
    else IsSubsequence(a, b[1..])
  }

  lemma {:induction false} SubsequenceOfSuffix<T>(a: seq<T>, b: seq<T>, k: nat)
    requires k <= |b| && IsSubsequence(a, b[k..])
    ensures IsSubsequence(a, b)
    decreases k
  {
    if k > 0 {
      assert b[k - 1..][1..] == b[k..];
      if a != [] && a[0] == b[k - 1] {
        assert IsSubsequence(a[1..], b[k..]) by {
          SubsequenceDrop(a, b[k..]);
        }
      }
      SubsequenceOfSuffix(a, b, k - 1);
    }
  }

  lemma {:induction false} SubsequenceDrop<T>(a: seq<T>, b: seq<T>)
    requires a != [] && IsSubsequence(a, b)
    ensures IsSubsequence(a[1..], b)
    decreases |b|
  {
    if a[0] != b[0] {
      SubsequenceDrop(a, b[1..]);
    }
    if a[1..] != [] && b[1..] != [] && a[1..][0] == b[0] {
      SubsequenceDrop(a[1..], b[1..]);
    }
  }

  /** The kept characters appear in the result in their original order. */
  lemma {:induction false} StripSubsequence(s: string)
    ensures IsSubsequence(StripTags(s), s)
    decreases |s|
  {
    if s != [] {
      if TagAt(s, 0) {
        StripSubsequence(s[TagEnd(s) + 1..]);
        SubsequenceOfSuffix(StripTags(s), s, TagEnd(s) + 1);
      } else {
        StripSubsequence(s[1..]);
        var r := StripTags(s);
        assert r[0] == s[0] && r[1..] == StripTags(s[1..]);
      }
    }
  }

  /** Text without `<` passes through and the scan resumes after it. */
  lemma {:induction false} StripPlain(p: string, rest: string)
    requires '<' !in p
    ensures StripTags(p + rest) == p + StripTags(rest)
    decreases |p|
  {
    if p != [] {
      var s := p + rest;
      assert s[0] == p[0] && s[1..] == p[1..] + rest;
      assert !TagAt(s, 0);
      StripPlain(p[1..], rest);
      assert StripTags(s) == [p[0]] + (p[1..] + StripTags(rest));
      assert [p[0]] + (p[1..] + StripTags(rest)) == p + StripTags(rest);
    } else {
      assert p + rest == rest;
    }
  }

  /** A leading tag `<…>` is deleted and the scan resumes after its `>`. */
  lemma StripTagPrefix(t: string, rest: string)
    requires |t| >= 3 && t[0] == '<' && t[|t| - 1] == '>'
    requires forall k :: 0 < k < |t| - 1 ==> t[k] != '>'
    ensures StripTags(t + rest) == StripTags(rest)
  {
    var s := t + rest;
    assert s[|t| - 1] == '>';
    assert '>' in s[2..] by {
      assert s[2..][|t| - 3] == '>';
    }
    assert TagAt(s, 0);
    var j := TagEnd(s);
    assert j == |t| - 1;
    assert s[j + 1..] == rest;
  }

  /** The shape of a complete tag: `<`, at least one character other than `>`, then `>`. */
  predicate IsTag(t: string) {
    |t| >= 3 && t[0] == '<' && t[|t| - 1] == '>' && forall k :: 0 < k < |t| - 1 ==> t[k] != '>'
  }

  /** Highlighted text `a<open>b<close>c` loses both tags and nothing else. */
  lemma StripHighlight(a: string, open: string, b: string, close: string, c: string)
    requires '<' !in a && '<' !in b && '<' !in c
    requires IsTag(open) && IsTag(close)
    ensures StripTags(a + (open + (b + (close + c)))) == a + (b + c)
  {
    StripPlain(c, []);
    assert c + [] == c;
    StripTagPrefix(close, c);
    StripPlain(b, close + c);
    StripTagPrefix(open, b + (close + c));
    StripPlain(a, open + (b + (close + c)));
  }

  /** The keyword highlight of a video title loses its markup. */
  lemma StripsKeywordTitle()
    ensures StripHtmlTags(Some("【" + ("<em class=\"keyword\">" + ("红警" + ("</em>" + "08】测试"))))) == Some("【" + ("红警" + "08】测试"))
  {
    var a, open, b, close, c := "【", "<em class=\"keyword\">", "红警", "</em>", "08】测试";
    assert IsTag(open) && IsTag(close);
    StripHighlight(a, open, b, close, c);
  }

  /** A highlight at the very start of a title loses its markup too. */
  lemma StripsLeadingTag()
    ensures StripHtmlTags(Some("<em class=\"keyword\">" + ("教父" + ("</em>" + " The Godfather")))) == Some("教父" + " The Godfather")
  {
    var a, open, b, close, c := "", "<em class=\"keyword\">", "教父", "</em>", " The Godfather";
    assert IsTag(open) && IsTag(close);
    StripHighlight(a, open, b, close, c);
    assert a + (open + (b + (close + c))) == open + (b + (close + c));
    assert a + (b + c) == b + c;
  }

  /** Text without tags comes back unchanged. */
  lemma KeepsPlainText()
    ensures StripHtmlTags(Some("纯文本无标签")) == Some("纯文本无标签")
  {
    var text := "纯文本无标签";
    StripPlain(text, []);
    assert text + [] == text;
  }

  lemma KeepsFalsy()
    ensures StripHtmlTags(Some("")) == Some("")
    ensures StripHtmlTags(None) == None
  {
  }

  // ---------------------------------------------------------------------------------------
  // safe_int
  // ---------------------------------------------------------------------------------------

  /** `int(f)` for a float: truncation toward zero. */
  function TruncateTowardZero(f: real): (r: int)
    ensures 0.0 <= f ==> r as real <= f < r as real + 1.0
    ensures f < 0.0 ==> r as real - 1.0 < f <= r as real
  {
    if 0.0 <= f then f.Floor else -((-f).Floor)
  }

  /** `int(value)`, with `None` where Python raises `ValueError` or `TypeError`. */
  function IntOf(v: PyValue.Value): Option<int> {
    match v
    case None => None
    case Bool(b) => Some(if b then 1 else 0)
    case Int(i) => Some(i)
    case Float(f) => Some(TruncateTowardZero(f))
    case Str(s) => PyStr.ParseInt(s)
    case List(_) => None
    case Dict(_) => None
  }

  /** `safe_int(value, default)`: the default for `None` and for values `int()` rejects. */
  function SafeInt(v: PyValue.Value, default: int): (r: int)
    ensures v.None? || IntOf(v).None? ==> r == default
    ensures !v.None? && IntOf(v).Some? ==> r == IntOf(v).value
  {
    if v.None? then default
    else
      match IntOf(v)
      case Some(i) => i
      case None => default
  }

  /** An integer, and its decimal text, convert to that integer whatever the default. */
  lemma SafeIntOfInt(i: int, default: int)
    ensures SafeInt(PyValue.Int(i), default) == i
    ensures SafeInt(PyValue.Str(PyStr.DecimalString(i)), default) == i
  {
    PyStr.ParseIntOfDecimalString(i);
  }

  /** Missing values, containers and text that is not a number give the default. */
  lemma SafeIntDefaults(s: string, items: seq<PyValue.Value>, default: int)
    requires PyStr.ParseInt(s).None?
    ensures SafeInt(PyValue.Value.None, default) == default
    ensures SafeInt(PyValue.Str(s), default) == default
    ensures SafeInt(PyValue.List(items), default) == default
  {
  }

  /** A float is truncated toward zero: the result is within one of it, on its side of 0. */
  lemma SafeIntOfFloat(f: real, default: int)
    ensures var r := SafeInt(PyValue.Float(f), default);
      (0.0 <= f ==> 0 <= r && r as real <= f < r as real + 1.0) &&
      (f < 0.0 ==> r <= 0 && r as real - 1.0 < f <= r as real)
  {
  }

  // ---------------------------------------------------------------------------------------
  // parse_result_items and _ITEM_PARSERS
  // ---------------------------------------------------------------------------------------

  /** The item classes a result type is parsed into. */
  datatype ItemKind =
    | VideoItem | MediaItem | LiveRoomItem | LiveUserItem
    | ArticleItem | TopicItem | UserItem | PhotoItem

  /** An item built by `from_dict` from one element of the result data.  The field-by-field
      copying is not modelled: the item keeps the dict it was built from. */
  datatype Item = Item(kind: ItemKind, source: Dict<string, PyValue.Value>)

  /** What `parse_result_items` returns: the input as it is for a type without a parser, or
      the parsed items. */
  datatype Items = Raw(value: PyValue.Value) | Parsed(items: seq<Item>)

  /** The exceptions the parsing can raise. */
  datatype ParseError =
    | NotIterable(value: PyValue.Value)   // TypeError: iterating a number, a bool or None
    | NoGetMethod(element: PyValue.Value)  // AttributeError: `from_dict` on a non-dict
    | Unhashable(key: PyValue.Value)       // TypeError: a list or dict used as a dict key
    | NotText(field: string, value: PyValue.Value)  // TypeError: `re.sub` on a truthy non-string

  /** Whether Python can hash the value (lists and dicts cannot). */
  predicate Hashable(v: PyValue.Value) {
    !v.List? && !v.Dict?
  }

  /** `_ITEM_PARSERS.get(result_type)` on a hashable key. */
  function ItemParser(resultType: PyValue.Value): (r: Option<ItemKind>)
    ensures r.Some? ==> resultType.Str?
  {
    if !resultType.Str? then None
    else
      var t := resultType.s;
      if t == "video" then Some(VideoItem)
      else if t == "media_bangumi" || t == "media_ft" then Some(MediaItem)
      else if t == "live_room" then Some(LiveRoomItem)
      else if t == "live_user" then Some(LiveUserItem)
      else if t == "article" then Some(ArticleItem)
      else if t == "topic" then Some(TopicItem)
      else if t == "bili_user" then Some(UserItem)
      else if t == "photo" then Some(PhotoItem)
      else None
  }

  /** The elements Python's `for` visits: list items, the one-character strings of a string,
      the keys of a dict. */
  function Elements(v: PyValue.Value): (r: Result<seq<PyValue.Value>, ParseError>)
    ensures v.List? ==> r == Ok(v.items)
  {
    match v
    case List(xs) => Ok(xs)
    case Str(s) => Ok(seq(|s|, i requires 0 <= i < |s| => PyValue.Str([s[i]])))
    case Dict(es) => Ok(seq(|es|, i requires 0 <= i < |es| => PyValue.Str(es[i].0)))
    case _ => Err(NotIterable(v))
  }

  /** The fields whose raw value `from_dict` hands to `strip_html_tags`, in the order the
      constructor call evaluates them; `UserItem` strips nothing. */
  function StrippedKeys(kind: ItemKind): seq<string> {
    match kind
    case MediaItem => ["title", "org_title"]
    case LiveUserItem => ["uname"]
    case UserItem => []
    case _ => ["title"]
  }

  /** `data.get(key, "")` */
  function FieldOf(entries: Dict<string, PyValue.Value>, key: string): PyValue.Value {
    Get(entries, key).GetOr(PyValue.Str(""))
  }

  /** `strip_html_tags(v)` returns a falsy `v` as it is and hands anything else to `re.sub`,
      which accepts only a string. */
  predicate Strippable(v: PyValue.Value) {
    v.Str? || !PyValue.Truthy(v)
  }

  /** The first of `keys` whose value `strip_html_tags` rejects. */
  function BadField(entries: Dict<string, PyValue.Value>, keys: seq<string>): (r: Option<string>)
    ensures r.None? <==> forall i :: 0 <= i < |keys| ==> Strippable(FieldOf(entries, keys[i]))
    ensures r.Some? ==> r.value in keys && !Strippable(FieldOf(entries, r.value))
  {
    if keys == [] then None
    else if !Strippable(FieldOf(entries, keys[0])) then Some(keys[0])
    else
      var r := BadField(entries, keys[1..]);
      assert r.None? ==> forall i :: 0 <= i < |keys| ==> Strippable(FieldOf(entries, keys[i])) by {
        if r.None? {
          forall i | 0 <= i < |keys| ensures Strippable(FieldOf(entries, keys[i])) {
            if i > 0 {
              assert keys[i] == keys[1..][i - 1];
            }
          }
        }
      }
      r
  }

  /** An element that `from_dict` of the given kind turns into an item without raising: a
      dict whose stripped fields hold a string or a falsy value. */
  predicate Parseable(kind: ItemKind, x: PyValue.Value) {
    x.Dict? && forall i :: 0 <= i < |StrippedKeys(kind)| ==> Strippable(FieldOf(x.entries, StrippedKeys(kind)[i]))
  }

  /** `[x for x in xs if x]` */
  function Truthies(xs: seq<PyValue.Value>): (r: seq<PyValue.Value>)
    ensures |r| <= |xs|
    ensures forall i :: 0 <= i < |r| ==> PyValue.Truthy(r[i])
  {
    if xs == [] then []
    else if PyValue.Truthy(xs[0]) then [xs[0]] + Truthies(xs[1..])
    else Truthies(xs[1..])
  }

  /** `[parser_cls.from_dict(item) for item in data_list if item]`, raising at the first
      truthy element that is not a dict or has a stripped field that is not text. */
  function ParseAll(kind: ItemKind, xs: seq<PyValue.Value>): Result<seq<Item>, ParseError> {
    if xs == [] then Ok([])
    else if !PyValue.Truthy(xs[0]) then ParseAll(kind, xs[1..])
    else if !xs[0].Dict? then Err(NoGetMethod(xs[0]))
    else
      match BadField(xs[0].entries, StrippedKeys(kind))
      case Some(k) => Err(NotText(k, FieldOf(xs[0].entries, k)))
      case None =>
        match ParseAll(kind, xs[1..])
        case Ok(rest) => Ok([Item(kind, xs[0].entries)] + rest)
        case Err(e) => Err(e)
  }

  /** `parse_result_items(result_type, data_list)` */
  function ParseResultItems(resultType: PyValue.Value, dataList: PyValue.Value): Result<Items, ParseError> {
    if !Hashable(resultType) then Err(Unhashable(resultType))
    else
      match ItemParser(resultType)
      case None => Ok(Raw(dataList))
      case Some(kind) =>
        match Elements(dataList)
        case Err(e) => Err(e)
        case Ok(xs) =>
          match ParseAll(kind, xs)
          case Err(e) => Err(e)
          case Ok(items) => Ok(Parsed(items))
  }

  /** The kept elements are a subsequence of the list, and a list with no falsy element is
      kept whole. */
  lemma {:induction false} TruthiesSubsequence(xs: seq<PyValue.Value>)
    ensures IsSubsequence(Truthies(xs), xs)
    ensures (forall i :: 0 <= i < |xs| ==> PyValue.Truthy(xs[i])) ==> Truthies(xs) == xs
  {
    if xs != [] {
      TruthiesSubsequence(xs[1..]);
      var r := Truthies(xs);
      if PyValue.Truthy(xs[0]) {
        assert r[0] == xs[0] && r[1..] == Truthies(xs[1..]);
      } else {
        SubsequenceOfSuffix(r, xs, 1);
      }
    }
  }

  predicate AllParseable(kind: ItemKind, xs: seq<PyValue.Value>) {
    forall i :: 0 <= i < |xs| ==> Parseable(kind, xs[i])
  }

  lemma AllParseableCons(kind: ItemKind, x: PyValue.Value, xs: seq<PyValue.Value>)
    ensures AllParseable(kind, [x] + xs) <==> Parseable(kind, x) && AllParseable(kind, xs)
  {
    var ys := [x] + xs;
    if Parseable(kind, x) && AllParseable(kind, xs) {
      forall i | 0 <= i < |ys| ensures Parseable(kind, ys[i]) {
        if i > 0 {
          assert ys[i] == xs[i - 1];
        }
      }
    }
    if AllParseable(kind, ys) {
      assert ys[0] == x;
      forall i | 0 <= i < |xs| ensures Parseable(kind, xs[i]) {
        assert xs[i] == ys[i + 1];
      }
    }
  }

  /** Parsing succeeds exactly when every truthy element is a dict whose stripped fields
      hold text or a falsy value. */
  lemma {:induction false} ParseAllSucceeds(kind: ItemKind, xs: seq<PyValue.Value>)
    ensures ParseAll(kind, xs).Ok? <==> AllParseable(kind, Truthies(xs))
  {
    if xs != [] {
      ParseAllSucceeds(kind, xs[1..]);
      if PyValue.Truthy(xs[0]) {
        assert Truthies(xs) == [xs[0]] + Truthies(xs[1..]);
        AllParseableCons(kind, xs[0], Truthies(xs[1..]));
      } else {
        assert Truthies(xs) == Truthies(xs[1..]);
      }
    }
  }

  /** A successful parse yields one item per truthy element, in order, built from that
      element. */
  lemma {:induction false} ParseAllItems(kind: ItemKind, xs: seq<PyValue.Value>)
    requires ParseAll(kind, xs).Ok?
    ensures var items := ParseAll(kind, xs).value;
      |items| == |Truthies(xs)| &&
      forall i :: 0 <= i < |items| ==> Parseable(kind, Truthies(xs)[i]) && items[i] == Item(kind, Truthies(xs)[i].entries)
  {
    if xs != [] {
      ParseAllItems(kind, xs[1..]);
      if PyValue.Truthy(xs[0]) {
        var t, u := Truthies(xs), Truthies(xs[1..]);
        assert t == [xs[0]] + u;
        var items := ParseAll(kind, xs).value;
        var rest := ParseAll(kind, xs[1..]).value;
        assert items == [Item(kind, xs[0].entries)] + rest;
        forall i | 0 <= i < |items| ensures Parseable(kind, t[i]) && items[i] == Item(kind, t[i].entries) {
          if i > 0 {
            assert t[i] == u[i - 1] && items[i] == rest[i - 1];
          }
        }
      } else {
        assert Truthies(xs) == Truthies(xs[1..]);
      }
    }
  }

  /** `_ITEM_PARSERS`: a result type without a parser returns the data as it is. */
  lemma UnknownTypeKeepsData(resultType: PyValue.Value, dataList: PyValue.Value)
    requires Hashable(resultType) && ItemParser(resultType).None?
    ensures ParseResultItems(resultType, dataList) == Ok(Raw(dataList))
  {
  }

  /** A known result type on a list whose truthy elements are all parseable: one item per
      truthy element, in order, of the type's item class. */
  lemma KnownTypeParsesList(resultType: PyValue.Value, xs: seq<PyValue.Value>)
    requires ItemParser(resultType).Some?
    requires forall i :: 0 <= i < |xs| ==> PyValue.Truthy(xs[i]) ==> Parseable(ItemParser(resultType).value, xs[i])
    ensures ParseResultItems(resultType, PyValue.List(xs)).Ok?
    ensures var r := ParseResultItems(resultType, PyValue.List(xs)).value;
      r.Parsed? && |r.items| == |Truthies(xs)| &&
      forall i :: 0 <= i < |r.items| ==>
        Truthies(xs)[i].Dict? && r.items[i] == Item(ItemParser(resultType).value, Truthies(xs)[i].entries)
  {
    var kind := ItemParser(resultType).value;
    TruthiesParseable(kind, xs);
    ParseAllSucceeds(kind, xs);
    ParseAllItems(kind, xs);
  }

  lemma {:induction false} TruthiesParseable(kind: ItemKind, xs: seq<PyValue.Value>)
    requires forall i :: 0 <= i < |xs| ==> PyValue.Truthy(xs[i]) ==> Parseable(kind, xs[i])
    ensures AllParseable(kind, Truthies(xs))
  {
    if xs != [] {
      TruthiesParseable(kind, xs[1..]);
      if PyValue.Truthy(xs[0]) {
        assert Truthies(xs)[1..] == Truthies(xs[1..]);
      }
    }
  }

  /** A truthy element that is not a dict makes parsing fail for a known type. */
  lemma NonDictRejected(resultType: PyValue.Value, xs: seq<PyValue.Value>, i: nat)
    requires ItemParser(resultType).Some?
    requires i < |xs| && PyValue.Truthy(xs[i]) && !xs[i].Dict?
    ensures ParseResultItems(resultType, PyValue.List(xs)).Err?
  {
    var kind := ItemParser(resultType).value;
    ParseAllSucceeds(kind, xs);
    TruthyKept(xs, i);
  }

  /** A truthy dict element whose stripped field holds a truthy non-string (a number, a
      list, a dict, `True`) makes parsing fail for a known type. */
  lemma NonTextFieldRejected(resultType: PyValue.Value, xs: seq<PyValue.Value>, i: nat, k: nat)
    requires ItemParser(resultType).Some?
    requires i < |xs| && PyValue.Truthy(xs[i]) && xs[i].Dict?
    requires k < |StrippedKeys(ItemParser(resultType).value)|
    requires !Strippable(FieldOf(xs[i].entries, StrippedKeys(ItemParser(resultType).value)[k]))
    ensures ParseResultItems(resultType, PyValue.List(xs)).Err?
  {
    var kind := ItemParser(resultType).value;
    ParseAllSucceeds(kind, xs);
    TruthyKept(xs, i);
  }

  /** A video whose title is the number 1 is rejected with the `TypeError` of `re.sub`. */
  lemma NumericTitleRejected()
    ensures var video := PyValue.Dict([("title", PyValue.Int(1))]);
      ParseResultItems(PyValue.Str("video"), PyValue.List([video])) == Err(NotText("title", PyValue.Int(1)))
  {
    var video := PyValue.Dict([("title", PyValue.Int(1))]);
    assert ItemParser(PyValue.Str("video")) == Some(VideoItem);
    assert FieldOf(video.entries, "title") == PyValue.Int(1);
    assert [video][1..] == [];
  }

  /** Every truthy element has a place among the kept ones. */
  lemma {:induction false} TruthyKept(xs: seq<PyValue.Value>, i: nat)
    requires i < |xs| && PyValue.Truthy(xs[i])
    ensures exists j :: 0 <= j < |Truthies(xs)| && Truthies(xs)[j] == xs[i]
  {
    if i == 0 {
      assert Truthies(xs)[0] == xs[0];
    } else {
      TruthyKept(xs[1..], i - 1);
      var j :| 0 <= j < |Truthies(xs[1..])| && Truthies(xs[1..])[j] == xs[1..][i - 1];
      if PyValue.Truthy(xs[0]) {
        assert Truthies(xs)[j + 1] == xs[i];
      } else {
        assert Truthies(xs)[j] == xs[i];
      }
    }
  }

  // ---------------------------------------------------------------------------------------
  // SearchAllResult._parse_results
  // ---------------------------------------------------------------------------------------

  /** The list attributes `_parse_results` assigns through `_attr_map`. */
  datatype Attr =
    | Videos | MediaBangumi | MediaFt | LiveRooms | LiveUsers
    | Articles | Topics | Users | Photos

  /** `_attr_map.get(result_type)` on a hashable key. */
  function AttrOf(resultType: PyValue.Value): (r: Option<Attr>)
    ensures r.Some? <==> ItemParser(resultType).Some?
  {
    if !resultType.Str? then None
    else
      var t := resultType.s;
      if t == "video" then Some(Videos)
      else if t == "media_bangumi" then Some(MediaBangumi)
      else if t == "media_ft" then Some(MediaFt)
      else if t == "live_room" then Some(LiveRooms)
      else if t == "live_user" then Some(LiveUsers)
      else if t == "article" then Some(Articles)
      else if t == "topic" then Some(Topics)
      else if t == "bili_user" then Some(Users)
      else if t == "photo" then Some(Photos)
      else None
  }

  /** The fields of a `SearchAllResult` that `_parse_results` writes. */
  datatype AllResults = AllResults(
    videos: seq<Item>, mediaBangumi: seq<Item>, mediaFt: seq<Item>,
    liveRooms: seq<Item>, liveUsers: seq<Item>, articles: seq<Item>,
    topics: seq<Item>, users: seq<Item>, photos: seq<Item>,
    otherResults: Dict<PyValue.Value, Items>)

  /** `getattr(result, attr)` */
  function ListOf(a: AllResults, attr: Attr): seq<Item> {
    match attr
    case Videos => a.videos
    case MediaBangumi => a.mediaBangumi
    case MediaFt => a.mediaFt
    case LiveRooms => a.liveRooms
    case LiveUsers => a.liveUsers
    case Articles => a.articles
    case Topics => a.topics
    case Users => a.users
    case Photos => a.photos
  }

  /** `setattr(result, attr, items)`: that attribute changes and nothing else. */
  function WithList(a: AllResults, attr: Attr, items: seq<Item>): (r: AllResults)
    ensures ListOf(r, attr) == items
    ensures forall other :: other != attr ==> ListOf(r, other) == ListOf(a, other)
    ensures r.otherResults == a.otherResults
  {
    match attr
    case Videos => a.(videos := items)
    case MediaBangumi => a.(mediaBangumi := items)
    case MediaFt => a.(mediaFt := items)
    case LiveRooms => a.(liveRooms := items)
    case LiveUsers => a.(liveUsers := items)
    case Articles => a.(articles := items)
    case Topics => a.(topics := items)
    case Users => a.(users := items)
    case Photos => a.(photos := items)
  }

  /** `group.get("result_type", "")` */
  function GroupType(group: Dict<string, PyValue.Value>): PyValue.Value {
    Get(group, "result_type").GetOr(PyValue.Str(""))
  }

  /** `group.get("data", []) or []` */
  function GroupData(group: Dict<string, PyValue.Value>): PyValue.Value {
    PyValue.Or(Get(group, "data").GetOr(PyValue.List([])), PyValue.List([]))
  }

  /** Whether `_parse_results` passes over a group without looking at its type. */
  predicate Skipped(group: PyValue.Value) {
    !group.Dict? || !PyValue.Truthy(GroupData(group.entries))
  }

  /** One turn of the loop of `_parse_results`. */
  function ParseGroup(a: AllResults, group: PyValue.Value): Result<AllResults, ParseError> {
    if Skipped(group) then Ok(a)
    else
      var resultType := GroupType(group.entries);
      match ParseResultItems(resultType, GroupData(group.entries))
      case Err(e) => Err(e)
      case Ok(items) =>
        match AttrOf(resultType)
        case Some(attr) =>
          assert items.Parsed?;
          Ok(WithList(a, attr, items.items))
        case None => Ok(a.(otherResults := Set(a.otherResults, resultType, items)))
  }

  /** The whole loop: the fields after the groups, and whether an exception stopped it (the
      fields then hold what the groups before the failing one wrote). */
  function ParseGroups(a: AllResults, groups: seq<PyValue.Value>): (AllResults, Outcome<ParseError>)
    decreases |groups|
  {
    if groups == [] then (a, Pass)
    else
      match ParseGroup(a, groups[0])
      case Err(e) => (a, Fail(e))
      case Ok(a') => ParseGroups(a', groups[1..])
  }

  class SearchAllResult {
    var videos: seq<Item>
    var mediaBangumi: seq<Item>
    var mediaFt: seq<Item>
    var liveRooms: seq<Item>
    var liveUsers: seq<Item>
    var articles: seq<Item>
    var topics: seq<Item>
    var users: seq<Item>
    var photos: seq<Item>
    var otherResults: Dict<PyValue.Value, Items>

    function Fields(): AllResults
      reads this
    {
      AllResults(videos, mediaBangumi, mediaFt, liveRooms, liveUsers, articles, topics, users,
        photos, otherResults)
    }

    /** The empty lists and the empty `other_results` that `__init__` sets up before parsing. */
    constructor ()
      ensures Fields() == AllResults([], [], [], [], [], [], [], [], [], [])
    {
      videos, mediaBangumi, mediaFt := [], [], [];
      liveRooms, liveUsers, articles := [], [], [];
      topics, users, photos := [], [], [];
      otherResults := [];
    }

    method SetList(attr: Attr, items: seq<Item>)
      modifies this
      ensures Fields() == WithList(old(Fields()), attr, items)
    {
      match attr
      case Videos => videos := items;
      case MediaBangumi => mediaBangumi := items;
      case MediaFt => mediaFt := items;
      case LiveRooms => liveRooms := items;
      case LiveUsers => liveUsers := items;
      case Articles => articles := items;
      case Topics => topics := items;
      case Users => users := items;
      case Photos => photos := items;
    }

    /** `_parse_results(results)` */
    method ParseResults(results: seq<PyValue.Value>) returns (outcome: Outcome<ParseError>)
      modifies this
      ensures (Fields(), outcome) == ParseGroups(old(Fields()), results)
    {
      var i := 0;
      while i < |results|
        invariant 0 <= i <= |results|
        invariant ParseGroups(old(Fields()), results) == ParseGroups(Fields(), results[i..])
      {
        var group := results[i];
        assert results[i..][0] == group && results[i..][1..] == results[i + 1..];
        i := i + 1;
        if !group.Dict? {
          continue;
        }
        var resultType := GroupType(group.entries);
        var dataList := GroupData(group.entries);
        if !PyValue.Truthy(dataList) {
          continue;
        }
        var parsed := ParseResultItems(resultType, dataList);
        if parsed.Err? {
          return Fail(parsed.error);
        }
        var items := parsed.value;
        var attr := AttrOf(resultType);
        if attr.Some? {
          SetList(attr.value, items.items);
        } else {
          otherResults := Set(otherResults, resultType, items);
        }
      }
      return Pass;
    }
  }

  /** Groups that are not dicts or carry no data change nothing. */
  lemma {:induction false} SkippedGroupsChangeNothing(a: AllResults, groups: seq<PyValue.Value>)
    requires forall i :: 0 <= i < |groups| ==> Skipped(groups[i])
    ensures ParseGroups(a, groups) == (a, Pass)
  {
    if groups != [] {
      SkippedGroupsChangeNothing(a, groups[1..]);
    }
  }

  /** The loop over `xs + ys` is the loop over `xs`, then, if no exception was raised, the
      loop over `ys` from where it left the fields. */
  lemma {:induction false} ParseGroupsAppend(a: AllResults, xs: seq<PyValue.Value>, ys: seq<PyValue.Value>)
    ensures ParseGroups(a, xs + ys) ==
      var (b, outcome) := ParseGroups(a, xs);
      if outcome.Pass? then ParseGroups(b, ys) else (b, outcome)
    decreases |xs|
  {
    if xs == [] {
      assert xs + ys == ys;
    } else {
      assert (xs + ys)[0] == xs[0] && (xs + ys)[1..] == xs[1..] + ys;
      match ParseGroup(a, xs[0])
      case Err(e) =>
      case Ok(a') => ParseGroupsAppend(a', xs[1..], ys);
    }
  }

  /** A group of a known type stores its items in the type's attribute and leaves every
      other attribute and `other_results` as they were. */
  lemma KnownGroupStored(a: AllResults, group: PyValue.Value)
    requires !Skipped(group)
    requires AttrOf(GroupType(group.entries)).Some?
    requires ParseResultItems(GroupType(group.entries), GroupData(group.entries)).Ok?
    ensures var attr := AttrOf(GroupType(group.entries)).value;
      var items := ParseResultItems(GroupType(group.entries), GroupData(group.entries)).value;
      var r := ParseGroup(a, group);
      items.Parsed? && r.Ok? && ListOf(r.value, attr) == items.items &&
      r.value.otherResults == a.otherResults &&
      forall other :: other != attr ==> ListOf(r.value, other) == ListOf(a, other)
  {
  }

  /** The last group of a type wins: after a successful run ending with a group of a known
      type, the type's attribute holds that group's items, whatever earlier groups stored. */
  lemma LastGroupWins(a: AllResults, earlier: seq<PyValue.Value>, group: PyValue.Value)
    requires ParseGroups(a, earlier).1.Pass?
    requires !Skipped(group)
    requires AttrOf(GroupType(group.entries)).Some?
    requires ParseResultItems(GroupType(group.entries), GroupData(group.entries)).Ok?
    ensures var attr := AttrOf(GroupType(group.entries)).value;
      var items := ParseResultItems(GroupType(group.entries), GroupData(group.entries)).value;
      var (r, outcome) := ParseGroups(a, earlier + [group]);
      outcome.Pass? && items.Parsed? && ListOf(r, attr) == items.items
  {
    ParseGroupsAppend(a, earlier, [group]);
    KnownGroupStored(ParseGroups(a, earlier).0, group);
  }

  /** A group of a type without an attribute is kept, data as it is, in `other_results`
      under its type; the list attributes are untouched. */
  lemma UnknownGroupKept(a: AllResults, group: PyValue.Value)
    requires !Skipped(group)
    requires Hashable(GroupType(group.entries)) && AttrOf(GroupType(group.entries)).None?
    ensures var r := ParseGroup(a, group);
      r.Ok? &&
      Get(r.value.otherResults, GroupType(group.entries)) == Some(Raw(GroupData(group.entries))) &&
      forall attr :: ListOf(r.value, attr) == ListOf(a, attr)
  {
  }

  // ---------------------------------------------------------------------------------------
  // SearchTypeResult._parse_results
  // ---------------------------------------------------------------------------------------

  /** The fields of a `SearchTypeResult` that `_parse_results` writes.  `live_rooms` and
      `live_users` exist only once a live search has set them. */
  datatype TypeResults = TypeResults(items: Items, liveRooms: Option<seq<Item>>, liveUsers: Option<seq<Item>>)

  /** `raw_result.get(key, []) or []` */
  function ListOr(d: Dict<string, PyValue.Value>, key: string): PyValue.Value {
    PyValue.Or(Get(d, key).GetOr(PyValue.List([])), PyValue.List([]))
  }

  /** `data.get("result")`, a missing key read as `None`. */
  function RawResult(data: Dict<string, PyValue.Value>): PyValue.Value {
    Get(data, "result").GetOr(PyValue.Value.None)
  }

  /** `_parse_results(data)` for the search type `searchType`: the new fields, and whether an
      exception stopped it. */
  function ParseTyped(searchType: string, t: TypeResults, data: Dict<string, PyValue.Value>): (TypeResults, Outcome<ParseError>) {
    var rawResult := RawResult(data);
    if rawResult.None? then (t, Pass)
    else if searchType == "live" then
      if !rawResult.Dict? then (t, Pass)
      else
        match ParseResultItems(PyValue.Str("live_room"), ListOr(rawResult.entries, "live_room"))
        case Err(e) => (t, Fail(e))
        case Ok(rooms) =>
          assert rooms.Parsed?;
          var t' := t.(liveRooms := Some(rooms.items));
          match ParseResultItems(PyValue.Str("live_user"), ListOr(rawResult.entries, "live_user"))
          case Err(e) => (t', Fail(e))
          case Ok(users) =>
            assert users.Parsed?;
            (t'.(liveUsers := Some(users.items), items := Parsed(rooms.items + users.items)), Pass)
    else if rawResult.List? then
      match ParseResultItems(PyValue.Str(searchType), rawResult)
      case Err(e) => (t, Fail(e))
      case Ok(items) => (t.(items := items), Pass)
    else (t, Pass)
  }

  class SearchTypeResult {
    const searchType: string
    var items: Items
    var liveRooms: Option<seq<Item>>
    var liveUsers: Option<seq<Item>>

    function Fields(): TypeResults
      reads this
    {
      TypeResults(items, liveRooms, liveUsers)
    }

    /** The empty `items` list `__init__` sets up before parsing. */
    constructor (searchType: string)
      ensures this.searchType == searchType
      ensures Fields() == TypeResults(Parsed([]), None, None)
    {
      this.searchType := searchType;
      items := Parsed([]);
      liveRooms, liveUsers := None, None;
    }

    /** `_parse_results(data)` */
    method ParseResults(data: Dict<string, PyValue.Value>) returns (outcome: Outcome<ParseError>)
      modifies this
      ensures (Fields(), outcome) == ParseTyped(searchType, old(Fields()), data)
    {
      var rawResult := RawResult(data);
      if rawResult.None? {
        return Pass;
      }
      if searchType == "live" {
        if rawResult.Dict? {
          var rooms := ParseResultItems(PyValue.Str("live_room"), ListOr(rawResult.entries, "live_room"));
          if rooms.Err? {
            return Fail(rooms.error);
          }
          liveRooms := Some(rooms.value.items);
          var users := ParseResultItems(PyValue.Str("live_user"), ListOr(rawResult.entries, "live_user"));
          if users.Err? {
            return Fail(users.error);
          }
          liveUsers := Some(users.value.items);
          items := Parsed(liveRooms.value + liveUsers.value);
        }
        return Pass;
      }
      if rawResult.List? {
        var parsed := ParseResultItems(PyValue.Str(searchType), rawResult);
        if parsed.Err? {
          return Fail(parsed.error);
        }
        items := parsed.value;
      }
      return Pass;
    }
  }

  /** A live search whose result is a dict: `items` is the rooms followed by the users. */
  lemma LiveItemsJoined(t: TypeResults, data: Dict<string, PyValue.Value>)
    requires RawResult(data).Dict?
    requires ParseTyped("live", t, data).1.Pass?
    ensures var r := ParseTyped("live", t, data).0;
      r.liveRooms.Some? && r.liveUsers.Some? && r.items == Parsed(r.liveRooms.value + r.liveUsers.value)
  {
  }

  /** A missing or `None` result, a live result that is not a dict, or any other type's
      result that is not a list leaves the fields as they were (so `items` stays empty on a
      fresh result). */
  lemma UnusableResultIgnored(searchType: string, t: TypeResults, data: Dict<string, PyValue.Value>)
    requires var raw := RawResult(data);
      raw.None? || (searchType == "live" && !raw.Dict?) || (searchType != "live" && !raw.List?)
    ensures ParseTyped(searchType, t, data) == (t, Pass)
  {
  }

  /** Any other type with a list result: `items` is what `parse_result_items` returns for the
      search type, and the live lists are untouched. */
  lemma TypedListParsed(searchType: string, t: TypeResults, data: Dict<string, PyValue.Value>)
    requires searchType != "live" && RawResult(data).List?
    requires ParseResultItems(PyValue.Str(searchType), RawResult(data)).Ok?
    ensures ParseTyped(searchType, t, data) ==
      (t.(items := ParseResultItems(PyValue.Str(searchType), RawResult(data)).value), Pass)
  {
  }

  // ---------------------------------------------------------------------------------------
  // BiliSearcher.search_by_type: the request parameters
  // ---------------------------------------------------------------------------------------

  /** `if cond: d[k] = v` */
  function PutIf(d: Dict<string, PyValue.Value>, cond: bool, k: string, v: PyValue.Value): (r: Dict<string, PyValue.Value>)
    ensures Get(r, k) == if cond then Some(v) else Get(d, k)
  {
    if cond then Set(d, k, v) else d
  }

  /** `PutIf` sets its own key when the condition holds and leaves every other key alone. */
  lemma PutIfGet(d: Dict<string, PyValue.Value>, cond: bool, k: string, v: PyValue.Value, other: string)
    ensures Get(PutIf(d, cond, k, v), other) == if cond && other == k then Some(v) else Get(d, other)
  {
  }

  /** `{"keyword": keyword, "search_type": st, "page": page}` */
  function BaseParams(keyword: string, searchType: string, page: int): (r: Dict<string, PyValue.Value>)
    ensures Get(r, "keyword") == Some(PyValue.Str(keyword))
    ensures Get(r, "search_type") == Some(PyValue.Str(searchType))
    ensures Get(r, "page") == Some(PyValue.Int(page))
    ensures forall k :: k !in {"keyword", "search_type", "page"} ==> Get(r, k).None?
  {
    [("keyword", PyValue.Str(keyword)), ("search_type", PyValue.Str(searchType)), ("page", PyValue.Int(page))]
  }

  /** The parameters `search_by_type` builds before `extra_params`: the base three, then
      each optional filter whose argument is truthy, in the order the source tests them.
      Enum arguments are given by their values (`SearchOrder`, `VideoDuration` and
      `UserType` mix in `str` or `int`, so their truth value is that of their value). */
  function SearchParams(
    keyword: string, searchType: string, page: int, order: string, duration: int, tids: int,
    orderSort: int, userType: int, categoryId: int): Dict<string, PyValue.Value>
  {
    var p0 := BaseParams(keyword, searchType, page);
    var p1 := PutIf(p0, order != [], "order", PyValue.Str(order));
    var p2 := PutIf(p1, duration != 0, "duration", PyValue.Int(duration));
    var p3 := PutIf(p2, tids != 0, "tids", PyValue.Int(tids));
    var p4 := PutIf(p3, orderSort != 0, "order_sort", PyValue.Int(orderSort));
    var p5 := PutIf(p4, userType != 0, "user_type", PyValue.Int(userType));
    PutIf(p5, categoryId != 0, "category_id", PyValue.Int(categoryId))
  }

  /** What `search_by_type` puts under each key before `extra_params`: `keyword`,
      `search_type` and `page` always, each optional filter exactly when its argument is
      truthy, and nothing else. */
  lemma SearchParamsGet(
    keyword: string, searchType: string, page: int, order: string, duration: int, tids: int,
    orderSort: int, userType: int, categoryId: int, k: string)
    ensures Get(SearchParams(keyword, searchType, page, order, duration, tids, orderSort, userType, categoryId), k) ==
      if k == "keyword" then Some(PyValue.Str(keyword))
      else if k == "search_type" then Some(PyValue.Str(searchType))
      else if k == "page" then Some(PyValue.Int(page))
      else if k == "order" then (if order != [] then Some(PyValue.Str(order)) else None)
      else if k == "duration" then (if duration != 0 then Some(PyValue.Int(duration)) else None)
      else if k == "tids" then (if tids != 0 then Some(PyValue.Int(tids)) else None)
      else if k == "order_sort" then (if orderSort != 0 then Some(PyValue.Int(orderSort)) else None)
      else if k == "user_type" then (if userType != 0 then Some(PyValue.Int(userType)) else None)
      else if k == "category_id" then (if categoryId != 0 then Some(PyValue.Int(categoryId)) else None)
      else None
  {
    var p0 := BaseParams(keyword, searchType, page);
    var p1 := PutIf(p0, order != [], "order", PyValue.Str(order));
    var p2 := PutIf(p1, duration != 0, "duration", PyValue.Int(duration));
    var p3 := PutIf(p2, tids != 0, "tids", PyValue.Int(tids));
    var p4 := PutIf(p3, orderSort != 0, "order_sort", PyValue.Int(orderSort));
    var p5 := PutIf(p4, userType != 0, "user_type", PyValue.Int(userType));
    PutIfGet(p0, order != [], "order", PyValue.Str(order), k);
    PutIfGet(p1, duration != 0, "duration", PyValue.Int(duration), k);
    PutIfGet(p2, tids != 0, "tids", PyValue.Int(tids), k);
    PutIfGet(p3, orderSort != 0, "order_sort", PyValue.Int(orderSort), k);
    PutIfGet(p4, userType != 0, "user_type", PyValue.Int(userType), k);
    PutIfGet(p5, categoryId != 0, "category_id", PyValue.Int(categoryId), k);
  }

  /** The parameters `search_by_type` signs: the built ones, then the keys of `extra_params`
      added after them.  Every built key is a named parameter of `search_by_type`, so
      `**extra_params` never carries one; the contract holds without relying on that. */
  method TypeSearchParams(
    keyword: string, searchType: string, page: int, order: string, duration: int, tids: int,
    orderSort: int, userType: int, categoryId: int, extraParams: Dict<string, PyValue.Value>)
    returns (params: Dict<string, PyValue.Value>)
    requires UniqueKeys(extraParams)
    ensures forall k :: k in Keys(extraParams) ==> Get(params, k) == Get(extraParams, k)
    ensures forall k :: k !in Keys(extraParams) ==> Get(params, k) == Get(SearchParams(keyword, searchType, page, order, duration, tids, orderSort, userType, categoryId), k)
  {
    params := [("keyword", PyValue.Str(keyword)), ("search_type", PyValue.Str(searchType)), ("page", PyValue.Int(page))];
    assert params == BaseParams(keyword, searchType, page);
    ghost var before0 := params;
    if order != [] {
      params := Set(params, "order", PyValue.Str(order));
    }
    assert params == PutIf(before0, order != [], "order", PyValue.Str(order));
    ghost var before1 := params;
    if duration != 0 {
      params := Set(params, "duration", PyValue.Int(duration));
    }
    assert params == PutIf(before1, duration != 0, "duration", PyValue.Int(duration));
    ghost var before2 := params;
    if tids != 0 {
      params := Set(params, "tids", PyValue.Int(tids));
    }
    assert params == PutIf(before2, tids != 0, "tids", PyValue.Int(tids));
    ghost var before3 := params;
    if orderSort != 0 {
      params := Set(params, "order_sort", PyValue.Int(orderSort));
    }
    assert params == PutIf(before3, orderSort != 0, "order_sort", PyValue.Int(orderSort));
    ghost var before4 := params;
    if userType != 0 {
      params := Set(params, "user_type", PyValue.Int(userType));
    }
    assert params == PutIf(before4, userType != 0, "user_type", PyValue.Int(userType));
    ghost var before5 := params;
    if categoryId != 0 {
      params := Set(params, "category_id", PyValue.Int(categoryId));
    }
    assert params == PutIf(before5, categoryId != 0, "category_id", PyValue.Int(categoryId));
    assert params == SearchParams(keyword, searchType, page, order, duration, tids, orderSort, userType, categoryId);
    ghost var built := params;
    params := Update(params, extraParams);
    UpdateOverrides(built, extraParams);
  }

  /** `d.update(e)`: the keys of `e` take their values from `e`, the others keep theirs. */
  lemma UpdateOverrides(d: Dict<string, PyValue.Value>, e: Dict<string, PyValue.Value>)
    requires UniqueKeys(e)
    ensures forall k :: k in Keys(e) ==> Get(Update(d, e), k) == Get(e, k)
    ensures forall k :: k !in Keys(e) ==> Get(Update(d, e), k) == Get(d, k)
  {
  }
}
