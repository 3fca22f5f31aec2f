/** ResponseParser: turns an HTTP response into the decoded array (JSON or
    XML, chosen by the Content-Type header) and the array into the models.
    The JSON decoder and the XML parser are library calls; the model takes
    them as functions and works on what they return. */
module ResponseParsing {
  import opened Wrappers
  import opened Values
  import Text
  import Failures
  import opened Videos
  import opened VideoCollections
  import opened RemovedVideos

  type Error = Failures.Failure

  /** The two parts of a response the parser reads. */
  datatype Response = Response(contentType: string, body: string)

  /** What `json_decode($body, true)` gives: a value, or the error message
      `json_last_error_msg()` reports. */
  datatype JsonResult = JsonValue(value: Value) | JsonSyntaxError(message: string)

  /** An XML element: its name, attributes in document order, its own text
      and its child elements in document order. */
  datatype Element = Element(name: string, attributes: seq<(string, string)>, text: string, children: seq<Element>)

  /** What `simplexml_load_string` gives: the root element, or failure with
      the messages libxml collected. */
  datatype XmlResult = XmlDocument(root: Element) | XmlSyntaxError(diagnostics: seq<string>)

  datatype Decoders = Decoders(json: string -> JsonResult, xml: string -> XmlResult)

  // ---------------------------------------------------------------- JSON

  /** parseJson(): a syntax error is reported; a document that decodes to
      null gives the empty array; one that decodes to another scalar breaks
      the method's `array` return type. */
  function ParseJson(json: string -> JsonResult, body: string): (r: Result<PhpArray, Error>)
    ensures json(body).JsonSyntaxError? ==>
      r == Failure(Failures.Eporner("Failed to parse JSON response: " + json(body).message))
    ensures json(body) == JsonValue(Null) ==> r == Success([])
    ensures r.Success? && json(body).JsonValue? && json(body).value != Null ==> json(body).value == Arr(r.value)
    ensures json(body).JsonValue? && !json(body).value.Null? && !json(body).value.Arr? ==>
      r == Failure(Failures.TypeError("return"))
  {
    match json(body)
    case JsonSyntaxError(message) => Failure(Failures.Eporner("Failed to parse JSON response: " + message))
    case JsonValue(Null) => Success([])
    case JsonValue(Arr(entries)) => Success(entries)
    case JsonValue(_) => Failure(Failures.TypeError("return"))
  }

  // ---------------------------------------------------------------- XML

  /** The attributes of an element as `@name => value` entries, in document
      order. */
  function AttributeEntries(e: Element): (es: PhpArray)
    ensures |es| == |e.attributes|
    ensures forall i :: 0 <= i < |es| ==> es[i] == Entry("@" + e.attributes[i].0, Str(e.attributes[i].1))
  {
    seq(|e.attributes|, i requires 0 <= i < |e.attributes| => Entry("@" + e.attributes[i].0, Str(e.attributes[i].1)))
  }

  /** The attributes array: each attribute assigned under its '@' name. */
  function Attributes(e: Element): PhpArray
  {
    Merge([], AttributeEntries(e))
  }

  /** What one element is stored as under its name in its parent's array. */
  function NodeValue(c: Element): Value
    decreases c, 2
  {
    if |c.children| > 0 then
      if |Attributes(c)| > 0 then Arr(Merge(Attributes(c), Convert(c))) else Arr(Convert(c))
    else if |Attributes(c)| > 0 then Arr(Merge([Entry("#", Str(c.text))], Attributes(c)))
    else Str(c.text)
  }

  /** Each child under its own name, in document order. */
  function ChildEntries(e: Element): (es: PhpArray)
    ensures |es| == |e.children|
    ensures forall i :: 0 <= i < |es| ==> es[i] == Entry(e.children[i].name, NodeValue(e.children[i]))
    decreases e, 0
  {
    seq(|e.children|, i requires 0 <= i < |e.children| =>
      var c := e.children[i];
      assert c in e.children;
      Entry(c.name, NodeValue(c)))
  }

  /** xmlToArray(): the children assigned one by one under their names, so a
      later sibling replaces an earlier one of the same name. */
  function Convert(e: Element): PhpArray
    decreases e, 1
  {
    Merge([], ChildEntries(e))
  }

  /** xmlToArray() as the source runs it: a loop over the children that
      assigns each child's value under its name. */
  method XmlToArray(e: Element) returns (result: PhpArray)
    ensures result == Convert(e)
    decreases e, 1
  {
    ghost var entries := ChildEntries(e);
    result := [];
    var i := 0;
    while i < |e.children|
      invariant 0 <= i <= |e.children|
      invariant result == Merge([], entries[..i])
    {
      var value := e.children[i];
      assert value in e.children;
      var node := ChildValue(value);
      MergePrefix([], entries, i);
      result := Put(result, value.name, node);
      i := i + 1;
    }
    assert entries[..i] == entries;
  }

  /** The body of xmlToArray()'s loop for one child: its attributes
      collected in an inner loop, then the recursive conversion of its
      children or its text. */
  method ChildValue(value: Element) returns (node: Value)
    ensures node == NodeValue(value)
    decreases value, 2
  {
    ghost var attributeEntries := AttributeEntries(value);
    var attributes: PhpArray := [];
    var j := 0;
    while j < |value.attributes|
      invariant 0 <= j <= |value.attributes|
      invariant attributes == Merge([], attributeEntries[..j])
    {
      MergePrefix([], attributeEntries, j);
      attributes := Put(attributes, "@" + value.attributes[j].0, Str(value.attributes[j].1));
      j := j + 1;
    }
    assert attributeEntries[..j] == attributeEntries;
    if |value.children| > 0 {
      var children := XmlToArray(value);
      if |attributes| > 0 {
        children := Merge(attributes, children);
      }
      node := Arr(children);
    } else {
      var valueStr := value.text;
      if |attributes| > 0 {
        node := Arr(Merge([Entry("#", Str(valueStr))], attributes));
      } else {
        node := Str(valueStr);
      }
    }
  }

  /** A leaf without attributes becomes its text. */
  lemma PlainLeaf(c: Element)
    requires |c.children| == 0 && |c.attributes| == 0
    ensures NodeValue(c) == Str(c.text)
  {
  }

  /** Under an attribute's '@' name is the value of the last attribute of
      that name, and a name without '@' is never an attribute key. */
  lemma AttributeLookup(e: Element, k: string)
    ensures (|k| == 0 || k[0] != '@') ==> Find(Attributes(e), k) == None
    ensures forall i :: LastWith(AttributeEntries(e), k, i) ==> Find(Attributes(e), k) == Some(Str(e.attributes[i].1))
  {
    var es := AttributeEntries(e);
    MergeLast([], es, k);
    if |k| == 0 || k[0] != '@' {
      assert forall i :: 0 <= i < |es| ==> es[i].key[0] == '@';
    }
  }

  /** A leaf with attributes becomes {"#": text, "@a": value, ...}: the text
      under "#" and every attribute under its '@' name. */
  lemma AttributedLeaf(c: Element, k: string)
    requires |c.children| == 0 && |c.attributes| > 0
    ensures NodeValue(c).Arr?
    ensures Find(NodeValue(c).entries, "#") == Some(Str(c.text))
    ensures k != "#" ==> Find(NodeValue(c).entries, k) == Find(Attributes(c), k)
  {
    var attrs := Attributes(c);
    var text := [Entry("#", Str(c.text))];
    AttributeLookup(c, "#");
    assert DistinctKeys(attrs);
    FindMerge(text, attrs, "#");
    FindMerge(text, attrs, k);
  }

  /** An element with children becomes the array of its children with its
      attributes merged in front: a child's key holds the child's value,
      any other key the attribute's. */
  lemma ElementWithChildren(c: Element, k: string)
    requires |c.children| > 0
    ensures NodeValue(c).Arr?
    ensures k in Keys(Convert(c)) ==> Find(NodeValue(c).entries, k) == Find(Convert(c), k)
    ensures k !in Keys(Convert(c)) ==> Find(NodeValue(c).entries, k) == Find(Attributes(c), k)
  {
    if |Attributes(c)| > 0 {
      FindMerge(Attributes(c), Convert(c), k);
    }
  }

  /** Repeated siblings overwrite one another: the value under a name is
      that of the last child of that name, and a name no child has is
      absent. */
  lemma LastSiblingWins(e: Element, k: string)
    ensures (forall j :: 0 <= j < |e.children| ==> e.children[j].name != k) ==> Find(Convert(e), k) == None
    ensures forall i :: LastWith(ChildEntries(e), k, i) ==> Find(Convert(e), k) == Some(NodeValue(e.children[i]))
  {
    var es := ChildEntries(e);
    MergeLast([], es, k);
  }

  /** The message used when libxml collected none. */
  const UNKNOWN_XML_ERROR: string := "Unknown XML parsing error"

  /** What parseXml() gives for a parsed document or a parse failure. */
  function ParseXml(xml: string -> XmlResult, body: string): (r: Result<PhpArray, Error>)
    ensures xml(body).XmlDocument? ==> r == Success(Convert(xml(body).root))
    ensures xml(body).XmlSyntaxError? && |xml(body).diagnostics| > 0 ==>
      r == Failure(Failures.Eporner("Failed to parse XML response: " + xml(body).diagnostics[0]))
    ensures xml(body).XmlSyntaxError? && |xml(body).diagnostics| == 0 ==>
      r == Failure(Failures.Eporner("Failed to parse XML response: " + UNKNOWN_XML_ERROR))
  {
    match xml(body)
    case XmlDocument(root) => Success(Convert(root))
    case XmlSyntaxError(diagnostics) =>
      var message := if |diagnostics| > 0 then diagnostics[0] else UNKNOWN_XML_ERROR;
      Failure(Failures.Eporner("Failed to parse XML response: " + message))
  }

  // ---------------------------------------------------------------- dispatch

  /** parseBody(): a PHP-empty body is the empty array; otherwise a JSON
      Content-Type decodes as JSON, an XML one as XML, and any other tries
      JSON and falls back to XML on any failure. */
  function ParseBody(d: Decoders, response: Response): (r: Result<PhpArray, Error>)
    ensures Text.IsPhpEmpty(response.body) ==> r == Success([])
    ensures !Text.IsPhpEmpty(response.body) && Text.Contains(response.contentType, "application/json") ==>
      r == ParseJson(d.json, response.body)
    ensures (!Text.IsPhpEmpty(response.body) && !Text.Contains(response.contentType, "application/json")
             && Text.Contains(response.contentType, "xml")) ==> r == ParseXml(d.xml, response.body)
    ensures (!Text.IsPhpEmpty(response.body) && !Text.Contains(response.contentType, "application/json")
             && !Text.Contains(response.contentType, "xml")) ==>
      r == if ParseJson(d.json, response.body).Success? then ParseJson(d.json, response.body) else ParseXml(d.xml, response.body)
  {
    var body := response.body;
    if Text.IsPhpEmpty(body) then Success([])
    else if Text.Contains(response.contentType, "application/json") then ParseJson(d.json, body)
    else if Text.Contains(response.contentType, "xml") then ParseXml(d.xml, body)
    else
      var j := ParseJson(d.json, body);
      if j.Success? then j else ParseXml(d.xml, body)
  }

  /** The body alone decides an empty result: neither the header nor the
      decoders are consulted. */
  lemma EmptyBodyIgnoresEverything(d1: Decoders, d2: Decoders, contentType1: string, contentType2: string, body: string)
    requires Text.IsPhpEmpty(body)
    ensures ParseBody(d1, Response(contentType1, body)) == ParseBody(d2, Response(contentType2, body)) == Success([])
  {
  }

  /** Under a JSON Content-Type the XML parser is never consulted, and under
      an XML one the JSON decoder is never consulted. */
  lemma DeclaredTypeIsExclusive(json1: string -> JsonResult, json2: string -> JsonResult,
                                xml1: string -> XmlResult, xml2: string -> XmlResult, response: Response)
    ensures Text.Contains(response.contentType, "application/json") ==>
      ParseBody(Decoders(json1, xml1), response) == ParseBody(Decoders(json1, xml2), response)
    ensures !Text.Contains(response.contentType, "application/json") && Text.Contains(response.contentType, "xml") ==>
      ParseBody(Decoders(json1, xml1), response) == ParseBody(Decoders(json2, xml1), response)
  {
  }

  /** With no declared type, a body JSON decodes into an array is taken as
      JSON whatever the XML parser would say; a body JSON rejects gets the
      XML parser's answer, success or failure. */
  lemma SniffingPrefersJson(d: Decoders, response: Response)
    requires !Text.IsPhpEmpty(response.body)
    requires !Text.Contains(response.contentType, "application/json") && !Text.Contains(response.contentType, "xml")
    ensures d.json(response.body).JsonValue? && d.json(response.body).value.Arr? ==>
      ParseBody(d, response) == Success(d.json(response.body).value.entries)
    ensures d.json(response.body).JsonSyntaxError? ==> ParseBody(d, response) == ParseXml(d.xml, response.body)
    ensures d.json(response.body).JsonValue? && !d.json(response.body).value.Arr? && !d.json(response.body).value.Null? ==>
      ParseBody(d, response) == ParseXml(d.xml, response.body)
  {
  }

  // ---------------------------------------------------------------- models

  /** parseSearch(). */
  function ParseSearch(d: Decoders, response: Response): (r: Result<VideoCollection, Error>)
    ensures ParseBody(d, response).Failure? ==> r == Failure(ParseBody(d, response).error)
    ensures ParseBody(d, response).Success? ==> r == CollectionFromArray(ParseBody(d, response).value)
  {
    var data :- ParseBody(d, response);
    CollectionFromArray(data)
  }

  /** An empty body is an empty page, not an error. */
  lemma EmptySearch(d: Decoders, response: Response)
    requires Text.IsPhpEmpty(response.body)
    ensures ParseSearch(d, response) == Success(VideoCollections.Empty)
  {
    VideoCollections.FromEmptyArray();
  }

  /** parseVideo(): an empty decoded array means the video was removed. */
  function ParseVideo(d: Decoders, response: Response): (r: Result<Option<Video>, Error>)
    ensures r.Success? && r.value.None? <==> ParseBody(d, response) == Success([])
    ensures ParseBody(d, response).Success? && ParseBody(d, response).value != [] ==>
      (r.Success? <==> VideoFromArray(ParseBody(d, response).value).Success?)
    ensures r.Success? && r.value.Some? ==>
      ParseBody(d, response).Success? && Success(r.value.value) == VideoFromArray(ParseBody(d, response).value)
  {
    var data :- ParseBody(d, response);
    if |data| == 0 then Success(None)
    else
      var video :- VideoFromArray(data);
      Success(Some(video))
  }

  /** parseRemoved(): one removed video per element of the decoded array, in
      order; the first element without an id, or that is not an array, fails
      the call. */
  function RemovedFromBody(d: Decoders, response: Response): (r: Result<seq<RemovedVideo>, Error>)
    ensures ParseBody(d, response).Failure? ==> r == Failure(ParseBody(d, response).error)
    ensures ParseBody(d, response).Success? ==> (r.Success? <==>
      forall i :: 0 <= i < |ParseBody(d, response).value| ==> RemovedFromValue(ParseBody(d, response).value[i].val).Success?)
    ensures r.Success? ==> (|r.value| == |ParseBody(d, response).value|
      && forall i :: 0 <= i < |r.value| ==>
           RemovedFromValue(ParseBody(d, response).value[i].val) == Success(r.value[i]))
  {
    var data :- ParseBody(d, response);
    MapResult(RemovedFromValue, ValuesOf(data))
  }

  method ParseRemoved(d: Decoders, response: Response) returns (r: Result<seq<RemovedVideo>, Error>)
    ensures r == RemovedFromBody(d, response)
  {
    var data := ParseBody(d, response);
    if data.Failure? {
      return Failure(data.error);
    }
    var items := ValuesOf(data.value);
    var removed: seq<RemovedVideo> := [];
    var i := 0;
    while i < |items|
      invariant SucceededUpTo(RemovedFromValue, items, i, removed)
    {
      var item := RemovedFromValue(items[i]);
      if item.Failure? {
        MapResultFailsAt(RemovedFromValue, items, i);
        return Failure(item.error);
      }
      SucceededStep(RemovedFromValue, items, i, removed);
      removed := removed + [item.value];
      i := i + 1;
    }
    MapResultAll(RemovedFromValue, items, removed);
    return Success(removed);
  }

  // ---------------------------------------------------------------- txt

  /** The ids that are not PHP-empty ("" and "0"), in order, as removed videos. */
  function Keep(ids: seq<string>): (r: seq<RemovedVideo>)
    ensures |r| <= |ids|
    ensures forall i :: 0 <= i < |r| ==> !Text.IsPhpEmpty(r[i].id) && r[i].id in ids
    ensures forall i :: 0 <= i < |ids| && !Text.IsPhpEmpty(ids[i]) ==> FromString(ids[i]) in r
  {
    if |ids| == 0 then []
    else
      var rest := Keep(ids[1..]);
      assert forall i :: 1 <= i < |ids| ==> ids[i] == ids[1..][i - 1];
      (if Text.IsPhpEmpty(ids[0]) then [] else [FromString(ids[0])]) + rest
  }

  /** One id on its own: kept unless it is PHP-empty. */
  lemma KeepSingle(id: string)
    ensures Keep([id]) == if Text.IsPhpEmpty(id) then [] else [FromString(id)]
  {
    assert [id][1..] == [];
  }

  /** Keep works line by line: the ids kept from two lists one after the
      other are those of the first list followed by those of the second. */
  lemma {:induction false} KeepAppend(a: seq<string>, b: seq<string>)
    ensures Keep(a + b) == Keep(a) + Keep(b)
    decreases |a|
  {
    if |a| == 0 {
      assert a + b == b;
    } else {
      assert (a + b)[1..] == a[1..] + b;
      KeepAppend(a[1..], b);
      var head: seq<RemovedVideo> := if Text.IsPhpEmpty(a[0]) then [] else [FromString(a[0])];
      assert Keep(a + b) == head + (Keep(a[1..]) + Keep(b));
      Regroup(head, Keep(a[1..]), Keep(b), Keep(a + b));
    }
  }

  /** A blank line between two runs of lines contributes nothing. */
  lemma KeepSkipsBlank(a: seq<string>, b: seq<string>)
    ensures Keep(a + [""] + b) == Keep(a) + Keep(b)
  {
    KeepAppend(a + [""], b);
    KeepAppend(a, [""]);
    KeepSingle("");
    assert Keep(a) + [] == Keep(a);
  }

  /** `trim` applied to every line. */
  function TrimAll(lines: seq<string>): (r: seq<string>)
    ensures |r| == |lines| && forall i :: 0 <= i < |r| ==> r[i] == Text.Trim(lines[i])
  {
    seq(|lines|, i requires 0 <= i < |lines| => Text.Trim(lines[i]))
  }

  /** parseRemovedTxt(): the trimmed body cut at each newline, each line
      trimmed, the PHP-empty ones dropped. */
  function RemovedFromTxt(body: string): (r: seq<RemovedVideo>)
    ensures forall i :: 0 <= i < |r| ==> Text.IsTrimmed(r[i].id) && !Text.IsPhpEmpty(r[i].id)
  {
    Keep(TrimAll(Text.Split(Text.Trim(body), '\n')))
  }

  /** Keep from position i on: id i's contribution, then the rest. */
  lemma KeepStep(ids: seq<string>, i: int)
    requires 0 <= i < |ids|
    ensures Keep(ids[i..]) == (if Text.IsPhpEmpty(ids[i]) then [] else [FromString(ids[i])]) + Keep(ids[i + 1..])
  {
    assert ids[i..][1..] == ids[i + 1..];
  }

  /** One loop step of parseRemovedTxt(): id i is kept or dropped, and what
      is kept so far together with what is still to come is unchanged. */
  lemma KeepPush(removed: seq<RemovedVideo>, ids: seq<string>, i: int)
    requires 0 <= i < |ids| && removed + Keep(ids[i..]) == Keep(ids)
    ensures (if Text.IsPhpEmpty(ids[i]) then removed else removed + [FromString(ids[i])]) + Keep(ids[i + 1..]) == Keep(ids)
  {
    KeepStep(ids, i);
    var kept: seq<RemovedVideo> := if Text.IsPhpEmpty(ids[i]) then [] else [FromString(ids[i])];
    Regroup(removed, kept, Keep(ids[i + 1..]), Keep(ids));
    if Text.IsPhpEmpty(ids[i]) {
      assert removed + kept == removed;
    }
  }

  lemma Regroup<T>(a: seq<T>, b: seq<T>, c: seq<T>, whole: seq<T>)
    requires a + (b + c) == whole
    ensures (a + b) + c == whole
  {
    assert a + (b + c) == (a + b) + c;
  }

  method ParseRemovedTxt(body: string) returns (removed: seq<RemovedVideo>)
    ensures removed == RemovedFromTxt(body)
  {
    var lines := Text.Split(Text.Trim(body), '\n');
    removed := KeepLines(lines);
  }

  /** The foreach of parseRemovedTxt(): each line trimmed, and kept unless
      it is PHP-empty. */
  method KeepLines(lines: seq<string>) returns (removed: seq<RemovedVideo>)
    ensures removed == Keep(TrimAll(lines))
  {
    ghost var ids := TrimAll(lines);
    removed := [];
    var i := 0;
    while i < |lines|
      invariant 0 <= i <= |lines|
      invariant removed + Keep(ids[i..]) == Keep(ids)
    {
      var id := Text.Trim(lines[i]);
      assert id == ids[i];
      KeepPush(removed, ids, i);
      if !Text.IsPhpEmpty(id) {
        removed := removed + [FromString(id)];
      }
      i := i + 1;
    }
    assert ids[i..] == [];
  }

  /** A list of ids written one per line reads back as the same ids. */
  lemma TxtRoundTrip(ids: seq<string>)
    requires |ids| >= 1
    requires forall i :: 0 <= i < |ids| ==> Text.IsTrimmed(ids[i]) && !Text.IsPhpEmpty(ids[i]) && '\n' !in ids[i]
    ensures |RemovedFromTxt(Text.Join(ids, "\n"))| == |ids|
    ensures forall i :: 0 <= i < |ids| ==> RemovedFromTxt(Text.Join(ids, "\n"))[i] == RemovedVideo(ids[i])
  {
    var s := Text.Join(ids, "\n");
    JoinTrimmed(ids);
    Text.TrimOfTrimmed(s);
    Text.SplitJoin(ids, '\n');
    TrimAllTrimmed(ids);
    KeepAll(ids);
  }

  /** A concrete removed.txt body: the outer whitespace is trimmed, the blank
      line is dropped and the indented id is trimmed. */
  lemma TxtDropsBlankLines()
    ensures RemovedFromTxt("123\n\n456\n  789  \n") == [RemovedVideo("123"), RemovedVideo("456"), RemovedVideo("789")]
  {
    SampleTrimmed();
    SampleSplit();
    SampleLinesTrimmed();
    SampleKept();
  }

  lemma SampleTrimmed()
    ensures Text.Trim("123\n\n456\n  789  \n") == "123\n\n456\n  789"
  {
    var body := "123\n\n456\n  789  \n";
    assert Text.Leading(body, 0) == 0;
    assert Text.Trailing(body, 14) == 14;
    assert Text.Trailing(body, 17) == 14;
    assert body[0..14] == "123\n\n456\n  789";
  }

  lemma SampleSplit()
    ensures Text.Split("123\n\n456\n  789", '\n') == ["123", "", "456", "  789"]
  {
    var parts := ["123", "", "456", "  789"];
    assert parts[1..][1..][1..] == ["  789"];
    assert parts[1..][1..] == ["456", "  789"];
    assert parts[1..] == ["", "456", "  789"];
    assert Text.Join(parts, "\n") == "123\n\n456\n  789";
    assert forall i :: 0 <= i < |parts| ==> '\n' !in parts[i];
    Text.SplitJoin(parts, '\n');
  }

  lemma SampleLinesTrimmed()
    ensures TrimAll(["123", "", "456", "  789"]) == ["123", "", "456", "789"]
  {
    Text.TrimOfTrimmed("123");
    Text.TrimOfTrimmed("");
    Text.TrimOfTrimmed("456");
    assert Text.Leading("  789", 0) == 2;
    assert Text.Trailing("  789", 5) == 5;
    assert "  789"[2..5] == "789";
  }

  lemma SampleKept()
    ensures Keep(["123", "", "456", "789"]) == [RemovedVideo("123"), RemovedVideo("456"), RemovedVideo("789")]
  {
    SampleBlankKept();
    KeepCons("123", ["", "456", "789"]);
  }

  lemma SampleBlankKept()
    ensures Keep(["", "456", "789"]) == [RemovedVideo("456"), RemovedVideo("789")]
  {
    SampleTailKept();
    KeepCons("", ["456", "789"]);
  }

  lemma SampleTailKept()
    ensures Keep(["456", "789"]) == [RemovedVideo("456"), RemovedVideo("789")]
  {
    KeepSingle("789");
    KeepCons("456", ["789"]);
  }

  /** Keep on a list with a first id put in front. */
  lemma KeepCons(id: string, rest: seq<string>)
    ensures Keep([id] + rest) == (if Text.IsPhpEmpty(id) then [] else [FromString(id)]) + Keep(rest)
  {
    assert ([id] + rest)[1..] == rest;
  }

  lemma TrimAllTrimmed(ids: seq<string>)
    requires forall i :: 0 <= i < |ids| ==> Text.IsTrimmed(ids[i])
    ensures TrimAll(ids) == ids
  {
    forall i | 0 <= i < |ids|
      ensures TrimAll(ids)[i] == ids[i]
    {
      Text.TrimOfTrimmed(ids[i]);
    }
  }

  /** Ids that are not PHP-empty are all kept, in order. */
  lemma {:induction false} KeepAll(ids: seq<string>)
    requires forall i :: 0 <= i < |ids| ==> !Text.IsPhpEmpty(ids[i])
    ensures |Keep(ids)| == |ids|
    ensures forall i :: 0 <= i < |ids| ==> Keep(ids)[i] == RemovedVideo(ids[i])
  {
    if |ids| > 0 {
      KeepAll(ids[1..]);
      assert Keep(ids) == [RemovedVideo(ids[0])] + Keep(ids[1..]);
    }
  }

  /** Lines that are trimmed and not blank join into a trimmed, non-empty text. */
  lemma {:induction false} JoinTrimmed(ids: seq<string>)
    requires |ids| >= 1
    requires forall i :: 0 <= i < |ids| ==> Text.IsTrimmed(ids[i]) && ids[i] != ""
    ensures Text.Join(ids, "\n") != "" && Text.IsTrimmed(Text.Join(ids, "\n"))
  {
    if |ids| > 1 {
      JoinTrimmed(ids[1..]);
      var tail := Text.Join(ids[1..], "\n");
      var s := Text.Join(ids, "\n");
      assert s == ids[0] + "\n" + tail;
      assert s[0] == ids[0][0];
      assert s[|s| - 1] == tail[|tail| - 1];
    }
  }
}
