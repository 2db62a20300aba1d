/** The text of a video document in `text_doc.py`: the sentence built from the owner's name,
    the title, the tags and the description, its truncated form, and the short MD5 tag of the
    sentence. A field may be `None`, which reads as "". MD5 is a parameter: `hexdigest(s)` is
    the 32 hexadecimal characters of the digest of the UTF-8 bytes of `s`. */
module TextDoc {
  import opened Wrappers
  import opened PyStr

  /** `(field or "").strip()` */
  function Stripped(field: Option<string>): string {
    Strip(field.GetOr([]))
  }

  /** `sentence += part`, preceded by `sentence += " "` when the sentence is not empty. */
  function Append(sentence: string, part: string): (r: string)
    ensures sentence == [] ==> r == part
    ensures sentence != [] ==> r == sentence + [' '] + part
  {
    if sentence == [] then part else sentence + " " + part
  }

  /** `f"【{name}】"` */
  function Bracketed(name: string): string {
    ['\U{3010}'] + name + ['\U{3011}']
  }

  /** `f"({tags})"` */
  function Parenthesized(tags: string): string {
    "(" + tags + ")"
  }

  /** `build_sentence_for_md5(title, tags, desc, owner_name)`: the fields are added one after
      the other, each only when it is not empty after stripping, and the description also
      not when it is "-". */
  function BuildSentenceForMd5(title: Option<string>, tags: Option<string>, desc: Option<string>,
                               ownerName: Option<string>): string
  {
    Sentence(Stripped(ownerName), Stripped(title), Stripped(tags), Stripped(desc))
  }

  /** The steps of `build_sentence_for_md5` on the stripped fields. */
  function Sentence(owner: string, title: string, tags: string, desc: string): string {
    var s0 := if owner != [] then Bracketed(owner) else [];
    var s1 := if title != [] then Append(s0, title) else s0;
    var s2 := if tags != [] then Append(s1, Parenthesized(tags)) else s1;
    if desc != [] && desc != "-" then Append(s2, desc) else s2
  }

  /** `build_sentence(title, tags, desc, owner_name, max_len)`: the same sentence, cut to
      `sentence[:max_len]` when `max_len` is truthy (neither `None` nor 0) and the sentence is
      longer. A negative `max_len` counts from the end, as Python's slices do. */
  function BuildSentenceOf(title: Option<string>, tags: Option<string>, desc: Option<string>,
                           ownerName: Option<string>, maxLen: Option<int>): string
  {
    Truncate(BuildSentenceForMd5(title, tags, desc, ownerName), maxLen)
  }

  /** `if max_len and len(sentence) > max_len: sentence = sentence[:max_len]` */
  function Truncate(sentence: string, maxLen: Option<int>): string {
    if maxLen.Some? && maxLen.value != 0 && |sentence| > maxLen.value then
      SlicePrefix(sentence, maxLen.value)
    else
      sentence
  }

  /** `calc_md5(title, tags, desc, owner_name, chars_length)`: the first `chars_length`
      characters of the digest of the md5 sentence. */
  function CalcMd5(title: Option<string>, tags: Option<string>, desc: Option<string>,
                   ownerName: Option<string>, charsLength: int,
                   hexdigest: string -> string): (r: string)
    ensures |r| <= |hexdigest(BuildSentenceForMd5(title, tags, desc, ownerName))|
  {
    SlicePrefix(hexdigest(BuildSentenceForMd5(title, tags, desc, ownerName)), charsLength)
  }

  // ---------------------------------------------------------------------------
  // The sentence as a join of its parts

  /** `parts` with `part` added at the end when `cond` holds. */
  function AddIf(parts: seq<string>, cond: bool, part: string): seq<string> {
    if cond then parts + [part] else parts
  }

  /** The parts of the sentence, in order: the bracketed owner, the title, the parenthesized
      tags and the description, each present only when it has text. */
  function Parts(owner: string, title: string, tags: string, desc: string): seq<string> {
    AddIf(AddIf(AddIf(AddIf([], owner != [], Bracketed(owner)), title != [], title),
                tags != [], Parenthesized(tags)), desc != [] && desc != "-", desc)
  }

  predicate NoEmptyPart(parts: seq<string>) {
    forall i :: 0 <= i < |parts| ==> parts[i] != []
  }

  lemma {:induction false} JoinEmpty(parts: seq<string>)
    requires NoEmptyPart(parts)
    ensures Join(" ", parts) == [] <==> parts == []
  {
    if |parts| > 1 {
      JoinEmpty(parts[..|parts| - 1]);
    }
  }

  /** One step of `build_sentence_for_md5` adds one part to the joined parts. */
  lemma AppendJoin(parts: seq<string>, cond: bool, part: string)
    requires NoEmptyPart(parts) && (cond ==> part != [])
    ensures NoEmptyPart(AddIf(parts, cond, part))
    ensures (if cond then Append(Join(" ", parts), part) else Join(" ", parts)) == Join(" ", AddIf(parts, cond, part))
  {
    if cond {
      JoinEmpty(parts);
      var all := parts + [part];
      assert all[..|all| - 1] == parts;
    }
  }

  /** The sentence is its parts joined by single spaces: no leading, trailing or doubled
      space, and the parts in the fixed order owner, title, tags, description. */
  lemma SentenceJoinsParts(owner: string, title: string, tags: string, desc: string)
    ensures NoEmptyPart(Parts(owner, title, tags, desc))
    ensures Sentence(owner, title, tags, desc) == Join(" ", Parts(owner, title, tags, desc))
  {
    AppendJoin([], owner != [], Bracketed(owner));
    var p0 := AddIf([], owner != [], Bracketed(owner));
    AppendJoin(p0, title != [], title);
    var p1 := AddIf(p0, title != [], title);
    AppendJoin(p1, tags != [], Parenthesized(tags));
    var p2 := AddIf(p1, tags != [], Parenthesized(tags));
    AppendJoin(p2, desc != [] && desc != "-", desc);
  }

  /** The sentence is empty exactly when no field has text, the description "-" counting as
      none. */
  lemma SentenceEmpty(owner: string, title: string, tags: string, desc: string)
    ensures Sentence(owner, title, tags, desc) == []
      <==> owner == [] && title == [] && tags == [] && (desc == [] || desc == "-")
  {
    SentenceJoinsParts(owner, title, tags, desc);
    JoinEmpty(Parts(owner, title, tags, desc));
  }

  /** A field of `None`, "" or only whitespace adds nothing: with every field so, the
      sentence is "". */
  lemma BlankFieldsGiveEmpty(title: Option<string>, tags: Option<string>, desc: Option<string>,
                             ownerName: Option<string>)
    requires forall k :: 0 <= k < |title.GetOr([])| ==> IsSpace(title.GetOr([])[k])
    requires forall k :: 0 <= k < |tags.GetOr([])| ==> IsSpace(tags.GetOr([])[k])
    requires forall k :: 0 <= k < |desc.GetOr([])| ==> IsSpace(desc.GetOr([])[k])
    requires forall k :: 0 <= k < |ownerName.GetOr([])| ==> IsSpace(ownerName.GetOr([])[k])
    ensures BuildSentenceForMd5(title, tags, desc, ownerName) == []
  {
    StrippedBlank(title);
    StrippedBlank(tags);
    StrippedBlank(desc);
    StrippedBlank(ownerName);
    assert BuildSentenceForMd5(title, tags, desc, ownerName) == Sentence([], [], [], []);
  }

  lemma StrippedBlank(field: Option<string>)
    requires forall k :: 0 <= k < |field.GetOr([])| ==> IsSpace(field.GetOr([])[k])
    ensures Stripped(field) == []
  {
    var s := field.GetOr([]);
    assert Strip(s) == [];
  }

  /** A description that strips to "-" is left out: the sentence is the one without it. */
  lemma DashDescOmitted(title: Option<string>, tags: Option<string>, desc: Option<string>,
                        ownerName: Option<string>)
    requires Stripped(desc) == "-"
    ensures BuildSentenceForMd5(title, tags, desc, ownerName) == BuildSentenceForMd5(title, tags, None, ownerName)
  {
    assert Stripped(None) == [];
    DashDropped(Stripped(ownerName), Stripped(title), Stripped(tags));
  }

  lemma DashDropped(owner: string, title: string, tags: string)
    ensures Sentence(owner, title, tags, "-") == Sentence(owner, title, tags, [])
  {
  }

  // ---------------------------------------------------------------------------
  // Truncation

  /** Without a `max_len` (`None` or 0) the sentence is the md5 sentence. */
  lemma UntruncatedSentence(title: Option<string>, tags: Option<string>, desc: Option<string>,
                            ownerName: Option<string>, maxLen: Option<int>)
    requires maxLen.None? || maxLen == Some(0)
    ensures BuildSentenceOf(title, tags, desc, ownerName, maxLen) == BuildSentenceForMd5(title, tags, desc, ownerName)
  {
  }

  /** With a positive `max_len` the sentence is the longest prefix of the untruncated one
      that has at most `max_len` characters. */
  lemma TruncatedSentence(sentence: string, maxLen: int)
    requires maxLen > 0
    ensures var r := Truncate(sentence, Some(maxLen));
      && |r| <= maxLen
      && r == sentence[..|r|]
      && (|r| == maxLen || r == sentence)
  {
    if |sentence| > maxLen {
      var r := SlicePrefix(sentence, maxLen);
      assert |r| == maxLen;
    }
  }

  /** A negative `max_len` drops that many characters from the end (the slice `s[:n]` with
      `n < 0`), down to "". */
  lemma NegativeMaxLen(sentence: string, maxLen: int)
    requires maxLen < 0
    ensures var r := Truncate(sentence, Some(maxLen));
      && r == sentence[..|r|]
      && |r| == (if |sentence| + maxLen < 0 then 0 else |sentence| + maxLen)
  {
  }

  /** The hash tag depends on the fields only through the md5 sentence, and is a prefix of
      the digest, `chars_length` characters long when the digest is long enough. */
  lemma Md5OfSentence(title: Option<string>, tags: Option<string>, desc: Option<string>,
                      ownerName: Option<string>, title': Option<string>, tags': Option<string>,
                      desc': Option<string>, ownerName': Option<string>, charsLength: int,
                      hexdigest: string -> string)
    requires BuildSentenceForMd5(title, tags, desc, ownerName) == BuildSentenceForMd5(title', tags', desc', ownerName')
    ensures CalcMd5(title, tags, desc, ownerName, charsLength, hexdigest) == CalcMd5(title', tags', desc', ownerName', charsLength, hexdigest)
    ensures var h := hexdigest(BuildSentenceForMd5(title, tags, desc, ownerName));
      var r := CalcMd5(title, tags, desc, ownerName, charsLength, hexdigest);
      && r == h[..|r|]
      && (0 <= charsLength <= |h| ==> |r| == charsLength)
  {
  }

  /** `TextDocItem`: a document's fields and the two values built from them. */
  class TextDocItem {
    var bvid: string
    var title: Option<string>
    var tags: Option<string>
    var ownerName: Option<string>
    var desc: Option<string>
    var sentence: string
    var md5Hash: string

    constructor(bvid: string, title: Option<string>, tags: Option<string>, ownerName: Option<string>,
                desc: Option<string>)
      ensures this.bvid == bvid && this.title == title && this.tags == tags
      ensures this.ownerName == ownerName && this.desc == desc
      ensures sentence == [] && md5Hash == []
    {
      this.bvid := bvid;
      this.title := title;
      this.tags := tags;
      this.ownerName := ownerName;
      this.desc := desc;
      sentence := [];
      md5Hash := [];
    }

    /** `calc_md5_hash()`: stores the 4-character tag of the fields in `md5_hash`. */
    method CalcMd5Hash(hexdigest: string -> string) returns (r: string)
      modifies this`md5Hash
      ensures r == md5Hash == CalcMd5(title, tags, desc, ownerName, 4, hexdigest)
    {
      md5Hash := CalcMd5(title, tags, desc, ownerName, 4, hexdigest);
      r := md5Hash;
    }

    /** `build_sentence(max_len)`: stores the sentence of the fields in `sentence`. */
    method BuildSentence(maxLen: Option<int>) returns (r: string)
      modifies this`sentence
      ensures r == sentence == BuildSentenceOf(title, tags, desc, ownerName, maxLen)
    {
      sentence := BuildSentenceOf(title, tags, desc, ownerName, maxLen);
      r := sentence;
    }
  }
}
