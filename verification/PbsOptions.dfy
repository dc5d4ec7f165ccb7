/** Merging the resource requests of a PBS job that is resumed. */
module PbsOptions {
  import opened Outcomes
  import opened Strings

  /** A dictionary in insertion order. */
  type Dict = seq<(string, string)>

  /** A part without "=" cannot be unpacked. */
  datatype MergeError = ValueError

  function Position(d: Dict, key: string): (i: nat)
    ensures i <= |d| && (i < |d| ==> d[i].0 == key)
    ensures forall j :: 0 <= j < i ==> d[j].0 != key
  {
    if d == [] || d[0].0 == key then 0 else 1 + Position(d[1..], key)
  }

  /** `d[key] = value`: a known key keeps its place, a new one comes last. */
  function Put(d: Dict, entry: (string, string)): Dict {
    var i := Position(d, entry.0);
    if i < |d| then d[i := entry] else d + [entry]
  }

  /** `d.update(more)`. */
  function Update(d: Dict, more: Dict): Dict {
    if more == [] then d
    else Put(Update(d, more[..|more| - 1]), more[|more| - 1])
  }

  /** `part.split('=', maxsplit=1)`, unpacked. */
  function ParsePart(part: string): Outcome<(string, string), MergeError> {
    var n := Find(part, '=');
    if n == |part| then Err(ValueError) else Ok((part[..n], part[n + 1..]))
  }

  /** The entries of a list of parts, in order. */
  function ParseParts(parts: seq<string>): Outcome<Dict, MergeError> {
    if parts == [] then Ok([])
    else
      var init :- ParseParts(parts[..|parts| - 1]);
      var entry :- ParsePart(parts[|parts| - 1]);
      Ok(init + [entry])
  }

  /** The comma separated parts of all the resources. */
  function Parts(resources: seq<string>): seq<string> {
    if resources == [] then []
    else Parts(resources[..|resources| - 1]) + SplitOn(resources[|resources| - 1], ',')
  }

  function Normalized(resources: seq<string>): Outcome<Dict, MergeError> {
    var entries :- ParseParts(Parts(resources));
    Ok(Update([], entries))
  }

  lemma PartsAppend(resources: seq<string>, i: nat)
    requires i < |resources|
    ensures Parts(resources[..i + 1]) == Parts(resources[..i]) + SplitOn(resources[i], ',')
  {
    assert resources[..i + 1][..i] == resources[..i];
  }

  lemma ParseAppend(before: seq<string>, parts: seq<string>, j: nat)
    requires j < |parts| && ParseParts(before + parts[..j]).Ok?
    ensures before + parts[..j + 1] <= before + parts
    ensures var r := ParseParts(before + parts[..j + 1]);
      match ParsePart(parts[j])
      case Ok(entry) => r == Ok(ParseParts(before + parts[..j]).value + [entry])
      case Err(_) => r.Err?
  {
    var all := before + parts[..j + 1];
    assert all[..|all| - 1] == before + parts[..j] && all[|all| - 1] == parts[j];
  }

  lemma {:induction false} ParseFails(parts: seq<string>, prefix: seq<string>)
    requires prefix <= parts && ParseParts(prefix).Err?
    ensures ParseParts(parts).Err?
  {
    if |prefix| < |parts| {
      ParseFails(parts[..|parts| - 1], prefix);
    } else {
      assert prefix == parts;
    }
  }

  lemma {:induction false} PartsFail(resources: seq<string>, n: nat, prefix: seq<string>)
    requires n <= |resources| && prefix <= Parts(resources[..n]) && ParseParts(prefix).Err?
    ensures ParseParts(Parts(resources)).Err?
    decreases |resources| - n
  {
    if n < |resources| {
      assert resources[..n + 1][..n] == resources[..n];
      PartsFail(resources, n + 1, prefix);
    } else {
      assert resources[..n] == resources;
      ParseFails(Parts(resources), prefix);
    }
  }

  /** There is only one error. */
  lemma SameError<T>(r: Outcome<T, MergeError>)
    ensures r.Err? ==> r == Err(ValueError)
  {
    if r.Err? {
      assert r.error.ValueError?;
    }
  }

  lemma UpdateAppended(d: Dict, init: Dict, f: (string, string))
    ensures Update(d, init + [f]) == Put(Update(d, init), f)
  {
    assert (init + [f])[..|init|] == init;
  }

  method NormalizeResources(resources: seq<string>) returns (r: Outcome<Dict, MergeError>)
    ensures r == Normalized(resources)
  {
    var resourceDict: Dict := [];
    ghost var entries: Dict := [];
    for i := 0 to |resources|
      invariant ParseParts(Parts(resources[..i])) == Ok(entries) && resourceDict == Update([], entries)
    {
      var parts := SplitOn(resources[i], ',');
      ghost var before := Parts(resources[..i]);
      PartsAppend(resources, i);
      assert before + parts[..0] == before;
      for j := 0 to |parts|
        invariant ParseParts(before + parts[..j]) == Ok(entries) && resourceDict == Update([], entries)
      {
        ParseAppend(before, parts, j);
        var part := ParsePart(parts[j]);
        if part.Err? {
          PartsFail(resources, i + 1, before + parts[..j + 1]);
          SameError(Normalized(resources));
          return Err(ValueError);
        }
        UpdateAppended([], entries, part.value);
        entries := entries + [part.value];
        resourceDict := Put(resourceDict, part.value);
      }
      assert parts[..|parts|] == parts;
    }
    assert resources[..|resources|] == resources;
    return Ok(resourceDict);
  }

  function PrintEntry(entry: (string, string)): string {
    entry.0 + ['='] + entry.1
  }

  function PrintDict(d: Dict): seq<string> {
    seq(|d|, i requires 0 <= i < |d| => PrintEntry(d[i]))
  }

  /** The options of a resume: no list, or a list of resources. */
  function Merged(olds: Option<seq<string>>, news: Option<seq<string>>)
    : Outcome<Option<seq<string>>, MergeError>
  {
    if olds == None then Ok(news)
    else if news == None then Ok(olds)
    else
      var d :- Normalized(olds.value);
      var more :- Normalized(news.value);
      Ok(Some(PrintDict(Update(d, more))))
  }

  method MergeResources(oldResources: Option<seq<string>>, newResources: Option<seq<string>>)
    returns (r: Outcome<Option<seq<string>>, MergeError>)
    ensures r == Merged(oldResources, newResources)
  {
    if oldResources == None { return Ok(newResources); }
    if newResources == None { return Ok(oldResources); }
    var dict := NormalizeResources(oldResources.value);
    if dict.Err? { return Err(dict.error); }
    var more := NormalizeResources(newResources.value);
    if more.Err? { return Err(more.error); }
    var resources := Update(dict.value, more.value);
    return Ok(Some(PrintDict(resources)));
  }

  // ------------------------------------------------ ordered dictionaries

  predicate DistinctKeys(d: Dict) {
    forall i, j :: 0 <= i < j < |d| ==> d[i].0 != d[j].0
  }

  predicate HasKey(d: Dict, key: string) {
    Position(d, key) < |d|
  }

  lemma PutDistinct(d: Dict, e: (string, string))
    requires DistinctKeys(d)
    ensures DistinctKeys(Put(d, e))
  {
  }

  lemma {:induction false} UpdateDistinct(d: Dict, more: Dict)
    requires DistinctKeys(d)
    ensures DistinctKeys(Update(d, more))
  {
    if more == [] {
    } else {
      UpdateDistinct(d, more[..|more| - 1]);
      PutDistinct(Update(d, more[..|more| - 1]), more[|more| - 1]);
    }
  }

  lemma {:induction false} PositionInConcat(d: Dict, more: Dict, key: string)
    ensures Position(d + more, key)
         == if HasKey(d, key) then Position(d, key) else |d| + Position(more, key)
  {
    if d == [] {
      assert d + more == more;
    } else if d[0].0 != key {
      assert (d + more)[1..] == d[1..] + more;
      PositionInConcat(d[1..], more, key);
    }
  }

  lemma {:induction false} PositionSameKeys(d: Dict, e: Dict, key: string)
    requires |d| == |e| && forall i :: 0 <= i < |d| ==> d[i].0 == e[i].0
    ensures Position(d, key) == Position(e, key)
  {
    if d != [] && d[0].0 != key {
      PositionSameKeys(d[1..], e[1..], key);
    }
  }

  /** What an entry put into a dictionary changes for the keys. */
  lemma PositionAfterPut(d: Dict, e: (string, string), key: string)
    ensures var p := Position(Put(d, e), key);
      p == if HasKey(d, key) then Position(d, key) else if key == e.0 then |d| else |Put(d, e)|
  {
    if HasKey(d, e.0) {
      PositionSameKeys(d, Put(d, e), key);
    } else {
      PositionInConcat(d, [e], key);
    }
  }

  lemma PutTwice(d: Dict, key: string, v: string, w: string)
    ensures Put(Put(d, (key, v)), (key, w)) == Put(d, (key, w))
  {
    PositionAfterPut(d, (key, v), key);
  }

  lemma PutCommutes(d: Dict, e: (string, string), f: (string, string))
    requires e.0 != f.0 && HasKey(d, e.0)
    ensures Put(Put(d, e), f) == Put(Put(d, f), e)
  {
    PositionAfterPut(d, e, f.0);
    PositionAfterPut(d, f, e.0);
  }

  lemma {:induction false} UpdateHasKey(d: Dict, more: Dict, i: nat)
    requires i < |more|
    ensures HasKey(Update(d, more), more[i].0)
  {
    var last := |more| - 1;
    PositionAfterPut(Update(d, more[..last]), more[last], more[i].0);
    if i == last {
    } else {
      UpdateHasKey(d, more[..last], i);
    }
  }

  /** The entry replaces the last one. */
  lemma UpdatePutLast(d: Dict, init: Dict, f: (string, string), e: (string, string))
    requires f.0 == e.0 && Position(init, e.0) == |init|
    ensures Update(d, Put(init + [f], e)) == Put(Update(d, init + [f]), e)
  {
    PositionInConcat(init, [f], e.0);
    assert Put(init + [f], e) == init + [e];
    UpdateAppended(d, init, f);
    UpdateAppended(d, init, e);
    PutTwice(Update(d, init), e.0, f.1, e.1);
  }

  /** The entry replaces one before the last one. */
  lemma UpdatePutBefore(d: Dict, init: Dict, f: (string, string), e: (string, string), i: nat)
    requires f.0 != e.0 && i == Position(init, e.0) < |init|
    requires Update(d, Put(init, e)) == Put(Update(d, init), e)
    ensures Update(d, Put(init + [f], e)) == Put(Update(d, init + [f]), e)
  {
    PositionInConcat(init, [f], e.0);
    assert Put(init + [f], e) == Put(init, e) + [f];
    UpdateAppended(d, init, f);
    UpdateAppended(d, Put(init, e), f);
    UpdateHasKey(d, init, i);
    PutCommutes(Update(d, init), e, f);
  }

  /** Putting an entry into the update is putting it into the updated dictionary. */
  lemma {:induction false} UpdatePut(d: Dict, more: Dict, e: (string, string))
    requires DistinctKeys(more)
    ensures Update(d, Put(more, e)) == Put(Update(d, more), e)
  {
    var i := Position(more, e.0);
    if i == |more| {
      UpdateAppended(d, more, e);
    } else {
      var last := |more| - 1;
      var init, f := more[..last], more[last];
      assert more == init + [f];
      PositionInConcat(init, [f], e.0);
      if i == last {
        UpdatePutLast(d, init, f, e);
      } else {
        assert f.0 != e.0;
        UpdatePut(d, init, e);
        UpdatePutBefore(d, init, f, e, i);
      }
    }
  }

  lemma {:induction false} UpdateAssociative(a: Dict, b: Dict, c: Dict)
    requires DistinctKeys(b)
    ensures Update(Update(a, b), c) == Update(a, Update(b, c))
  {
    if c == [] {
    } else {
      var init := c[..|c| - 1];
      UpdateAssociative(a, b, init);
      UpdateDistinct(b, init);
      UpdatePut(a, Update(b, init), c[|c| - 1]);
    }
  }

  lemma {:induction false} UpdateEmpty(d: Dict)
    requires DistinctKeys(d)
    ensures Update([], d) == d
  {
    if d == [] {
    } else {
      var init, last := d[..|d| - 1], d[|d| - 1];
      UpdateEmpty(init);
      assert d == init + [last];
      assert !HasKey(init, last.0);
    }
  }

  // -------------------------------------------------- printing entries

  predicate CleanEntry(e: (string, string)) {
    '=' !in e.0 && ',' !in e.0 && ',' !in e.1
  }

  predicate CleanDict(d: Dict) {
    forall i :: 0 <= i < |d| ==> CleanEntry(d[i])
  }

  lemma ParsePrinted(e: (string, string))
    requires CleanEntry(e)
    ensures SplitOn(PrintEntry(e), ',') == [PrintEntry(e)] && ParsePart(PrintEntry(e)) == Ok(e)
  {
    var part := PrintEntry(e);
    SplitNone(part, ',');
    FindFirst(e.0, e.1, '=');
    assert part[..|e.0|] == e.0 && part[|e.0| + 1..] == e.1;
  }

  lemma {:induction false} ParsePrintedDict(d: Dict)
    requires CleanDict(d)
    ensures Parts(PrintDict(d)) == PrintDict(d) && ParseParts(PrintDict(d)) == Ok(d)
  {
    if d == [] {
    } else {
      var init, last := d[..|d| - 1], d[|d| - 1];
      ParsePrintedDict(init);
      ParsePrinted(last);
      assert PrintDict(d)[..|d| - 1] == PrintDict(init);
      assert d == init + [last];
    }
  }

  /** A printed dictionary is read back. */
  lemma NormalizePrinted(d: Dict)
    requires CleanDict(d) && DistinctKeys(d)
    ensures Normalized(PrintDict(d)) == Ok(d)
  {
    ParsePrintedDict(d);
    UpdateEmpty(d);
  }

  lemma {:induction false} PartsHaveNoComma(resources: seq<string>)
    ensures forall i :: 0 <= i < |Parts(resources)| ==> ',' !in Parts(resources)[i]
  {
    if resources == [] {
    } else {
      PartsHaveNoComma(resources[..|resources| - 1]);
      PiecesHaveNone(resources[|resources| - 1], ',');
    }
  }

  lemma {:induction false} ParsedClean(parts: seq<string>)
    requires ParseParts(parts).Ok?
    requires forall i :: 0 <= i < |parts| ==> ',' !in parts[i]
    ensures CleanDict(ParseParts(parts).value)
  {
    if parts == [] {
    } else {
      ParsedClean(parts[..|parts| - 1]);
    }
  }

  lemma {:induction false} UpdateClean(d: Dict, more: Dict)
    requires CleanDict(d) && CleanDict(more)
    ensures CleanDict(Update(d, more))
  {
    if more == [] {
    } else {
      UpdateClean(d, more[..|more| - 1]);
    }
  }

  lemma NormalizedGood(resources: seq<string>)
    requires Normalized(resources).Ok?
    ensures CleanDict(Normalized(resources).value) && DistinctKeys(Normalized(resources).value)
  {
    PartsHaveNoComma(resources);
    ParsedClean(Parts(resources));
    var entries := ParseParts(Parts(resources)).value;
    UpdateClean([], entries);
    UpdateDistinct([], entries);
  }

  // ----------------------------------------------------------- the monoid

  /** No list is the identity. */
  lemma MergeIdentity(a: Option<seq<string>>)
    ensures Merged(None, a) == Ok(a) && Merged(a, None) == Ok(a)
  {
  }

  function MergedLeft(a: Option<seq<string>>, b: Option<seq<string>>, c: Option<seq<string>>)
    : Outcome<Option<seq<string>>, MergeError>
  {
    var ab :- Merged(a, b);
    Merged(ab, c)
  }

  function MergedRight(a: Option<seq<string>>, b: Option<seq<string>>, c: Option<seq<string>>)
    : Outcome<Option<seq<string>>, MergeError>
  {
    var bc :- Merged(b, c);
    Merged(a, bc)
  }

  lemma MergedGood(x: Dict, y: Dict)
    requires CleanDict(x) && CleanDict(y) && DistinctKeys(x) && DistinctKeys(y)
    ensures Normalized(PrintDict(Update(x, y))) == Ok(Update(x, y))
  {
    UpdateClean(x, y);
    UpdateDistinct(x, y);
    NormalizePrinted(Update(x, y));
  }

  lemma MergeAssociativeDicts(a: seq<string>, b: seq<string>, c: seq<string>)
    requires Normalized(a).Ok? && Normalized(b).Ok? && Normalized(c).Ok?
    ensures MergedLeft(Some(a), Some(b), Some(c)) == MergedRight(Some(a), Some(b), Some(c))
  {
    var x, y, z := Normalized(a).value, Normalized(b).value, Normalized(c).value;
    NormalizedGood(a);
    NormalizedGood(b);
    NormalizedGood(c);
    MergedGood(x, y);
    MergedGood(y, z);
    UpdateAssociative(x, y, z);
  }

  /** If two lists can be merged, the result is read as well as both of them. */
  lemma MergedIsRead(a: seq<string>, b: seq<string>)
    requires Normalized(a).Ok? && Normalized(b).Ok?
    ensures Merged(Some(a), Some(b)).Ok? && Merged(Some(a), Some(b)).value.Some?
    ensures Normalized(Merged(Some(a), Some(b)).value.value).Ok?
  {
    NormalizedGood(a);
    NormalizedGood(b);
    MergedGood(Normalized(a).value, Normalized(b).value);
  }

  /** If a list cannot be read, no grouping can be merged. */
  lemma MergeFails(a: seq<string>, b: seq<string>, c: seq<string>)
    requires Normalized(a).Err? || Normalized(b).Err? || Normalized(c).Err?
    ensures MergedLeft(Some(a), Some(b), Some(c)).Err? && MergedRight(Some(a), Some(b), Some(c)).Err?
  {
    if Normalized(a).Ok? && Normalized(b).Ok? {
      MergedIsRead(a, b);
    }
    if Normalized(b).Ok? && Normalized(c).Ok? {
      MergedIsRead(b, c);
    }
  }

  /** Repeated resumes can be combined in either grouping, with the same keys in the same
      order, and with the same error if a part is malformed. */
  lemma MergeAssociative(a: Option<seq<string>>, b: Option<seq<string>>, c: Option<seq<string>>)
    ensures MergedLeft(a, b, c) == MergedRight(a, b, c)
  {
    if a.Some? && b.Some? && c.Some? {
      if Normalized(a.value).Ok? && Normalized(b.value).Ok? && Normalized(c.value).Ok? {
        MergeAssociativeDicts(a.value, b.value, c.value);
      } else {
        MergeFails(a.value, b.value, c.value);
        SameError(MergedLeft(a, b, c));
        SameError(MergedRight(a, b, c));
      }
    }
  }

  function Lookup(d: Dict, key: string): Option<string> {
    var i := Position(d, key);
    if i < |d| then Some(d[i].1) else None
  }

  /** A key has its last new value, or else its old one. */
  lemma {:induction false} UpdateLookup(d: Dict, more: Dict, key: string)
    requires DistinctKeys(more)
    ensures Lookup(Update(d, more), key)
         == if HasKey(more, key) then Lookup(more, key) else Lookup(d, key)
  {
    if more == [] {
    } else {
      var init, last := more[..|more| - 1], more[|more| - 1];
      assert more == init + [last];
      UpdateLookup(d, init, key);
      PositionInConcat(init, [last], key);
      PositionAfterPut(Update(d, init), last, key);
      PositionAfterPut(Update(d, init), last, last.0);
      assert HasKey(init, key) ==> key != last.0;
    }
  }

  /** Known keys keep their places; new ones come behind them. */
  lemma {:induction false} UpdateKeepsPlaces(d: Dict, more: Dict, i: nat)
    requires i < |d|
    ensures i < |Update(d, more)| && Update(d, more)[i].0 == d[i].0
  {
    if more == [] {
    } else {
      UpdateKeepsPlaces(d, more[..|more| - 1], i);
    }
  }

  /** What a merge of two well-formed lists holds for a key. */
  lemma MergedValues(olds: seq<string>, news: seq<string>, key: string)
    requires Normalized(olds).Ok? && Normalized(news).Ok?
    ensures Merged(Some(olds), Some(news)).Ok? && Merged(Some(olds), Some(news)).value.Some?
    ensures var r := Normalized(Merged(Some(olds), Some(news)).value.value);
      var d, more := Normalized(olds).value, Normalized(news).value;
      && r.Ok?
      && Lookup(r.value, key) == if HasKey(more, key) then Lookup(more, key) else Lookup(d, key)
  {
    NormalizedGood(olds);
    NormalizedGood(news);
    MergedGood(Normalized(olds).value, Normalized(news).value);
    UpdateLookup(Normalized(olds).value, Normalized(news).value, key);
  }

  // ------------------------------------------------- what a list stands for

  /** A part without an equals sign is an error; the key ends at the first one. */
  lemma PartRead(part: string)
    ensures ParsePart(part).Err? <==> '=' !in part
    ensures ParsePart(part).Ok? ==>
      var (key, value) := ParsePart(part).value; part == key + "=" + value && '=' !in key
  {
    var n := Find(part, '=');
    if n == |part| {
      assert part[..n] == part;
    } else {
      assert part[n] == '=' && part == part[..n] + "=" + part[n + 1..];
    }
  }

  lemma PartsOne(resource: string)
    ensures Parts([resource]) == SplitOn(resource, ',') && Parts([]) == []
  {
    assert [resource][..0] == [];
    assert [] + SplitOn(resource, ',') == SplitOn(resource, ',');
  }

  lemma FourParts(a: seq<string>, b: seq<string>, c: seq<string>)
    ensures a + (b + c) == (a + b) + c
  {
  }

  /** The parts of the resources follow each other. */
  lemma {:induction false} PartsConcat(x: seq<string>, y: seq<string>)
    ensures Parts(x + y) == Parts(x) + Parts(y)
  {
    if y == [] {
      assert x + y == x && Parts(x) + [] == Parts(x);
    } else {
      var last := |y| - 1;
      assert (x + y)[..|x + y| - 1] == x + y[..last] && (x + y)[|x + y| - 1] == y[last];
      PartsConcat(x, y[..last]);
      FourParts(Parts(x), Parts(y[..last]), SplitOn(y[last], ','));
    }
  }

  predicate AllHaveKeys(parts: seq<string>) {
    forall i :: 0 <= i < |parts| ==> '=' in parts[i]
  }

  /** The entries are those of the parts, in order. */
  predicate AreEntries(d: Dict, parts: seq<string>) {
    && |d| == |parts|
    && forall i :: 0 <= i < |d| ==> parts[i] == d[i].0 + "=" + d[i].1 && '=' !in d[i].0
  }

  lemma AllHaveKeysNext(parts: seq<string>)
    requires parts != []
    ensures AllHaveKeys(parts) <==> AllHaveKeys(parts[..|parts| - 1]) && '=' in parts[|parts| - 1]
  {
    var init := parts[..|parts| - 1];
    assert forall i :: 0 <= i < |init| ==> init[i] == parts[i];
  }

  lemma {:induction false} PartsRead(parts: seq<string>)
    ensures ParseParts(parts).Ok? <==> AllHaveKeys(parts)
    ensures ParseParts(parts).Ok? ==> AreEntries(ParseParts(parts).value, parts)
  {
    if parts == [] {
    } else {
      var init, last := parts[..|parts| - 1], parts[|parts| - 1];
      PartsRead(init);
      PartRead(last);
      AllHaveKeysNext(parts);
    }
  }

  /** The value of a key in a list of entries: the last one. */
  function LastValue(entries: Dict, key: string): Option<string> {
    if entries == [] then None
    else if entries[|entries| - 1].0 == key then Some(entries[|entries| - 1].1)
    else LastValue(entries[..|entries| - 1], key)
  }

  lemma {:induction false} UpdateLast(d: Dict, entries: Dict, key: string)
    ensures Lookup(Update(d, entries), key)
         == if LastValue(entries, key).Some? then LastValue(entries, key) else Lookup(d, key)
  {
    if entries == [] {
    } else {
      var init, last := entries[..|entries| - 1], entries[|entries| - 1];
      UpdateLast(d, init, key);
      PositionAfterPut(Update(d, init), last, key);
      PositionAfterPut(Update(d, init), last, last.0);
    }
  }

  function Keys(d: Dict): seq<string> {
    seq(|d|, i requires 0 <= i < |d| => d[i].0)
  }

  /** The keys of the entries that are not known yet, each once, as they come first. */
  function NewKeys(known: seq<string>, entries: Dict): seq<string> {
    if entries == [] then []
    else
      var before, key := NewKeys(known, entries[..|entries| - 1]), entries[|entries| - 1].0;
      if key in known + before then before else before + [key]
  }

  lemma KeyIsKnown(d: Dict, key: string)
    ensures key in Keys(d) <==> HasKey(d, key)
  {
    var i := Position(d, key);
    if i < |d| {
      assert Keys(d)[i] == key;
    }
  }

  lemma PutKeys(d: Dict, entry: (string, string))
    ensures Keys(Put(d, entry)) == if entry.0 in Keys(d) then Keys(d) else Keys(d) + [entry.0]
  {
    KeyIsKnown(d, entry.0);
  }

  lemma {:induction false} UpdateKeys(d: Dict, entries: Dict)
    ensures Keys(Update(d, entries)) == Keys(d) + NewKeys(Keys(d), entries)
  {
    if entries == [] {
      assert Keys(d) + [] == Keys(d);
    } else {
      var init, last := entries[..|entries| - 1], entries[|entries| - 1];
      UpdateKeys(d, init);
      PutKeys(Update(d, init), last);
      assert Keys(d) + (NewKeys(Keys(d), init) + [last.0]) == (Keys(d) + NewKeys(Keys(d), init)) + [last.0];
    }
  }

  /** A list can be read exactly if each of its parts has an equals sign. Its dictionary has
      the keys in the order in which they come first, each with its last value. */
  lemma NormalizedIs(resources: seq<string>, key: string)
    ensures Normalized(resources).Ok? <==> AllHaveKeys(Parts(resources))
    ensures Normalized(resources).Ok? ==>
      exists entries :: AreEntries(entries, Parts(resources))
        && Keys(Normalized(resources).value) == NewKeys([], entries)
        && Lookup(Normalized(resources).value, key) == LastValue(entries, key)
  {
    PartsRead(Parts(resources));
    if Normalized(resources).Ok? {
      var entries := ParseParts(Parts(resources)).value;
      UpdateKeys([], entries);
      assert Keys([]) == [] && [] + NewKeys([], entries) == NewKeys([], entries);
      UpdateLast([], entries, key);
    }
  }

  /** What a merge of two lists prints: the old keys first, in their order, and behind them the
      new ones in theirs, each with an equals sign and its value. */
  lemma MergedKeys(olds: seq<string>, news: seq<string>)
    requires Normalized(olds).Ok? && Normalized(news).Ok?
    ensures Merged(Some(olds), Some(news)).Ok? && Merged(Some(olds), Some(news)).value.Some?
    ensures var printed := Merged(Some(olds), Some(news)).value.value;
      var r, d, more := Normalized(printed), Normalized(olds).value, Normalized(news).value;
      && r.Ok? && Keys(r.value) == Keys(d) + NewKeys(Keys(d), more)
      && |printed| == |r.value|
      && forall i :: 0 <= i < |printed| ==> printed[i] == r.value[i].0 + "=" + r.value[i].1
  {
    var d, more := Normalized(olds).value, Normalized(news).value;
    NormalizedGood(olds);
    NormalizedGood(news);
    MergedGood(d, more);
    UpdateKeys(d, more);
  }
}
