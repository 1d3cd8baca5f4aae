/** The language-file refresh of `YamlUpdater`: which remote files count as
    languages, and the recursive merge that adds to a local YAML tree every
    key the remote tree has and the local one lacks. */
module YamlMerge {
  import opened Common
  import opened JavaStrings

  /** A value loaded from a YAML document: a nested mapping (`Map<String, Object>`),
      YAML `null`, or anything else (strings, numbers, lists), kept as its text. */
  datatype Yaml = Scalar(text: string) | Section(entries: map<string, Yaml>) | Null

  /** `updateYaml(local, remote)` casts a local value to `Map` before recursing:
      a mapping casts to itself, `null` casts to a null reference (`None`), and
      anything else fails the cast. */
  function AsMap(y: Yaml): (r: Option<Option<map<string, Yaml>>>)
    ensures r.None? <==> y.Scalar?
    ensures r == Some(None) <==> y.Null?
  {
    match y
    case Section(entries) => Some(Some(entries))
    case Null => Some(None)
    case Scalar(_) => None
  }

  /** The merge of `remote` into `local` completes without an exception: a null
      local map is only survivable when the remote map is empty (the loop never
      touches it), and every key both sides hold with a mapping on the remote
      side must cast to a mapping locally and merge in turn. */
  predicate Mergeable(local: Option<map<string, Yaml>>, remote: map<string, Yaml>)
    decreases Section(remote), 0
  {
    match local
    case None => remote == map[]
    case Some(l) => forall k :: k in remote && k in l ==> MergeableEntry(l[k], remote[k])
  }

  /** One key present on both sides merges without an exception. */
  predicate MergeableEntry(localValue: Yaml, remoteValue: Yaml)
    decreases remoteValue, 1
  {
    match remoteValue
    case Section(entries) =>
      (match AsMap(localValue)
       case None => false
       case Some(cast) => Mergeable(cast, entries))
    case _ => true
  }

  /** The local map after the merge: remote keys missing locally are added with
      the remote value, keys holding a mapping on both sides are merged
      recursively, and every other local entry is kept as it was. */
  function Merged(local: map<string, Yaml>, remote: map<string, Yaml>): (r: map<string, Yaml>)
    ensures r.Keys == local.Keys + remote.Keys
    ensures forall k :: k in remote && k !in local ==> r[k] == remote[k]
    ensures forall k :: k in local && (k !in remote || !remote[k].Section?) ==> r[k] == local[k]
    decreases Section(remote), 1
  {
    map k | k in local.Keys + remote.Keys :: MergedEntry(k, local, remote)
  }

  /** The value key `k` has after the merge. */
  function MergedEntry(k: string, local: map<string, Yaml>, remote: map<string, Yaml>): Yaml
    requires k in local.Keys + remote.Keys
    decreases Section(remote), 0
  {
    if k !in local then remote[k]
    else if k in remote && remote[k].Section? && local[k].Section? then
      Section(Merged(local[k].entries, remote[k].entries))
    else local[k]
  }

  /** The tree that results from `updateYaml(local, remote)`, or the exception. */
  function Merge(local: Option<map<string, Yaml>>, remote: map<string, Yaml>): (r: Result<Option<map<string, Yaml>>, Fault>)
    ensures r.Success? <==> Mergeable(local, remote)
    ensures r.Success? ==> r.value.Some? == local.Some?
  {
    if !Mergeable(local, remote) then Failure(ClassCast)
    else match local
      case None => Success(None)
      case Some(l) => Success(Some(Merged(l, remote)))
  }

  /** `updateYaml(localYaml, githubYaml)`: walks the remote entries, puts the
      missing ones into the local map and recurses where the remote value is a
      mapping. A null local map fails on its first use; a local value that is
      not a mapping where the remote one is fails the cast. */
  method UpdateYaml(local: Option<map<string, Yaml>>, remote: map<string, Yaml>)
      returns (r: Result<Option<map<string, Yaml>>, Fault>)
    ensures r.Success? <==> Mergeable(local, remote)
    ensures r.Success? ==> r == Merge(local, remote)
    ensures r.Failure? ==> r.error == NullPointer || r.error == ClassCast
    decreases Section(remote)
  {
    if remote == map[] {
      if local.Some? {
        assert Merged(local.value, remote) == local.value;
      }
      return Success(local);
    }
    if local.None? {
      return Failure(NullPointer);
    }
    var result := local.value;
    var pending := remote.Keys;
    while pending != {}
      invariant pending <= remote.Keys
      invariant result.Keys == local.value.Keys + (remote.Keys - pending)
      invariant forall k :: k in result ==>
        result[k] == (if k in remote.Keys - pending then MergedEntry(k, local.value, remote) else local.value[k])
      invariant forall k :: k in remote.Keys - pending && k in local.value ==> MergeableEntry(local.value[k], remote[k])
      decreases pending
    {
      var k :| k in pending;
      pending := pending - {k};
      if k !in result {
        result := result[k := remote[k]];
      } else if remote[k].Section? {
        var cast := AsMap(result[k]);
        if cast.None? {
          return Failure(ClassCast);
        }
        assert Section(remote[k].entries) == remote[k];
        var sub := UpdateYaml(cast.value, remote[k].entries);
        if sub.Failure? {
          return sub;
        }
        if sub.value.Some? {
          result := result[k := Section(sub.value.value)];
        }
      }
    }
    assert result == Merged(local.value, remote);
    return Success(Some(result));
  }

  /** Every key of `remote`, at every depth, is present in `m`: where the remote
      value is a mapping, the value in `m` is a mapping covering it (or `null`
      standing for an empty one). */
  predicate Covers(m: map<string, Yaml>, remote: map<string, Yaml>)
    decreases Section(remote), 0
  {
    forall k :: k in remote ==> k in m && CoversEntry(m[k], remote[k])
  }

  /** The value `v` covers the remote value `remoteValue`. */
  predicate CoversEntry(v: Yaml, remoteValue: Yaml)
    decreases remoteValue, 1
  {
    match remoteValue
    case Section(entries) =>
      (match v
       case Section(e) => Covers(e, entries)
       case Null => entries == map[]
       case Scalar(_) => false)
    case _ => true
  }

  /** A tree covers itself. */
  lemma {:induction false} CoversSelf(m: map<string, Yaml>)
    ensures Covers(m, m)
    decreases Section(m), 0
  {
    forall k | k in m
      ensures CoversEntry(m[k], m[k])
    {
      CoversSelfEntry(m[k]);
    }
  }

  /** A value covers itself. */
  lemma {:induction false} CoversSelfEntry(v: Yaml)
    ensures CoversEntry(v, v)
    decreases v, 1
  {
    if v.Section? {
      CoversSelf(v.entries);
    }
  }

  /** After a merge that completes, every key of the remote tree, at every
      depth, is present in the local tree. */
  lemma {:induction false} MergeCovers(local: map<string, Yaml>, remote: map<string, Yaml>)
    requires Mergeable(Some(local), remote)
    ensures Covers(Merged(local, remote), remote)
    decreases Section(remote)
  {
    var m := Merged(local, remote);
    forall k | k in remote
      ensures k in m && CoversEntry(m[k], remote[k])
    {
      assert m[k] == MergedEntry(k, local, remote);
      if k !in local {
        CoversSelfEntry(remote[k]);
      } else if remote[k].Section? {
        assert MergeableEntry(local[k], remote[k]);
        if local[k].Section? {
          assert m[k] == Section(Merged(local[k].entries, remote[k].entries));
          assert Section(remote[k].entries) == remote[k];
          MergeCovers(local[k].entries, remote[k].entries);
        } else if local[k].Null? {
          assert Mergeable(AsMap(local[k]).value, remote[k].entries);
        }
      }
    }
  }

  /** Merging into a tree that already covers the remote one completes and
      changes nothing. */
  lemma {:induction false} MergeCoveredIsIdentity(m: map<string, Yaml>, remote: map<string, Yaml>)
    requires Covers(m, remote)
    ensures Mergeable(Some(m), remote)
    ensures Merged(m, remote) == m
    decreases Section(remote)
  {
    forall k | k in remote
      ensures MergeableEntry(m[k], remote[k])
      ensures MergedEntry(k, m, remote) == m[k]
    {
      assert CoversEntry(m[k], remote[k]);
      if remote[k].Section? && m[k].Section? {
        assert Section(remote[k].entries) == remote[k];
        MergeCoveredIsIdentity(m[k].entries, remote[k].entries);
      }
    }
    assert Merged(m, remote) == m;
  }

  /** `updateYaml` is idempotent: merging the same remote tree a second time
      completes and leaves the first result as it is. */
  lemma MergeIdempotent(local: map<string, Yaml>, remote: map<string, Yaml>)
    requires Mergeable(Some(local), remote)
    ensures Merge(Merge(Some(local), remote).value, remote) == Merge(Some(local), remote)
  {
    MergeCovers(local, remote);
    MergeCoveredIsIdentity(Merged(local, remote), remote);
  }

  /** A JSON value in the role of a file name: a primitive (a string, number
      or boolean, with its text), JSON null, an object, or an array. */
  datatype JsonValue = JsonPrimitive(text: string) | JsonNull | JsonObject | JsonArray(items: seq<JsonValue>)

  /** One element of the listed JSON array: an object with or without a
      `name` member, or some other JSON value. */
  datatype Element = Entry(name: Option<JsonValue>) | NotAnObject

  /** The listing of the language directory as the update sees it: no response
      body, a body holding no JSON value (Gson reads it as null), a body that
      is not a JSON array, or the elements of the array. */
  datatype Listing = NoResponse | Blank | Malformed | Elements(elements: seq<Element>)

  /** Gson's `getAsString`: the text of a primitive; an array of exactly one
      element answers for that element; JSON null and objects refuse. */
  function AsString(j: JsonValue): (r: Result<string, Fault>)
    ensures r.Failure? ==> r.error == UnsupportedOperation || r.error == IllegalState
    ensures j.JsonPrimitive? ==> r == Success(j.text)
  {
    match j
    case JsonPrimitive(text) => Success(text)
    case JsonNull => Failure(UnsupportedOperation)
    case JsonObject => Failure(UnsupportedOperation)
    case JsonArray(items) => if |items| == 1 then AsString(items[0]) else Failure(IllegalState)
  }

  /** `element.getAsJsonObject().get("name").getAsString()`. */
  function ElementName(e: Element): (r: Result<string, Fault>)
    ensures e.NotAnObject? ==> r == Failure(IllegalState)
    ensures e.Entry? && e.name.None? ==> r == Failure(NullPointer)
    ensures e.Entry? && e.name.Some? && e.name.value.JsonPrimitive? ==> r == Success(e.name.value.text)
  {
    match e
    case NotAnObject => Failure(IllegalState)
    case Entry(None) => Failure(NullPointer)
    case Entry(Some(j)) => AsString(j)
  }

  /** The names of `elements`, when every one can be read. */
  function Names(elements: seq<Element>): (r: seq<string>)
    requires forall i :: 0 <= i < |elements| ==> ElementName(elements[i]).Success?
  {
    if elements == [] then [] else [ElementName(elements[0]).value] + Names(elements[1..])
  }

  /** `languages` followed by what the rest of the walk gives, or the rest's
      fault. */
  function Then(languages: seq<string>, rest: Result<seq<string>, Fault>): Result<seq<string>, Fault>
  {
    if rest.Failure? then rest else Success(languages + rest.value)
  }

  /** The walk over the array elements: each name is read in turn, the first
      unreadable one throws, and the names ending with `.yml` are kept. */
  function Fetched(elements: seq<Element>): Result<seq<string>, Fault>
  {
    if elements == [] then Success([])
    else
      var n := ElementName(elements[0]);
      if n.Failure? then Failure(n.error)
      else Then(if IsLanguageFile(n.value) then [n.value] else [], Fetched(elements[1..]))
  }

  /** One element of the walk: a readable name moves the language files
      found so far forward, an unreadable one ends the walk with its fault. */
  lemma FetchedStep(elements: seq<Element>, i: nat, languages: seq<string>)
    requires i < |elements|
    ensures ElementName(elements[i]).Failure? ==>
      Then(languages, Fetched(elements[i..])) == Failure(ElementName(elements[i]).error)
    ensures ElementName(elements[i]).Success? ==>
      var n := ElementName(elements[i]).value;
      Then(languages, Fetched(elements[i..])) ==
        Then(languages + (if IsLanguageFile(n) then [n] else []), Fetched(elements[i + 1..]))
  {
    assert elements[i..][1..] == elements[i + 1..];
    var name := ElementName(elements[i]);
    if name.Success? {
      var kept := if IsLanguageFile(name.value) then [name.value] else [];
      var rest := Fetched(elements[i + 1..]);
      assert Fetched(elements[i..]) == Then(kept, rest);
      if rest.Success? {
        assert languages + (kept + rest.value) == (languages + kept) + rest.value;
      }
    }
  }

  /** The walk completes exactly when every element has a readable name, and
      then gives the language files among the names in listing order; when it
      fails, the fault is that of the first unreadable element. */
  lemma {:induction false} FetchedReadsEveryName(elements: seq<Element>)
    ensures Fetched(elements).Success? <==> forall i :: 0 <= i < |elements| ==> ElementName(elements[i]).Success?
    ensures Fetched(elements).Success? ==> Fetched(elements).value == LanguageFiles(Names(elements))
    ensures Fetched(elements).Failure? ==>
      exists i :: 0 <= i < |elements| && ElementName(elements[i]) == Failure(Fetched(elements).error)
        && forall k :: 0 <= k < i ==> ElementName(elements[k]).Success?
  {
    if elements != [] {
      var rest := elements[1..];
      FetchedReadsEveryName(rest);
      var n := ElementName(elements[0]);
      if n.Success? {
        forall i | 0 <= i < |rest|
          ensures rest[i] == elements[i + 1]
        {
        }
        if Fetched(rest).Failure? {
          var i :| 0 <= i < |rest| && ElementName(rest[i]) == Failure(Fetched(rest).error)
            && forall k :: 0 <= k < i ==> ElementName(rest[k]).Success?;
          assert ElementName(elements[i + 1]) == Failure(Fetched(elements).error);
          assert forall k :: 0 <= k < i + 1 ==> ElementName(elements[k]).Success? by {
            forall k | 0 < k < i + 1
              ensures ElementName(elements[k]).Success?
            {
              assert elements[k] == rest[k - 1];
            }
          }
        } else {
          var names := Names(elements);
          assert names[1..] == Names(rest);
        }
      } else {
        assert ElementName(elements[0]) == Failure(Fetched(elements).error);
      }
    }
  }

  /** A remote file is a language file when its name ends with `.yml`. */
  predicate IsLanguageFile(name: string)
  {
    EndsWith(name, ".yml")
  }

  /** The language files of `names`, in listing order. */
  function LanguageFiles(names: seq<string>): (r: seq<string>)
    ensures |r| <= |names|
    ensures forall x :: x in r <==> x in names && IsLanguageFile(x)
  {
    if names == [] then []
    else if IsLanguageFile(names[0]) then [names[0]] + LanguageFiles(names[1..])
    else LanguageFiles(names[1..])
  }

  /** `fetchAvailableLanguages`: an empty list without a response, a null
      pointer at the `for` over a blank body, `null` for a malformed one, and
      otherwise the walk over the array elements. */
  method FetchAvailableLanguages(listing: Listing) returns (r: Result<Option<seq<string>>, Fault>)
    ensures listing.NoResponse? ==> r == Success(Some([]))
    ensures listing.Blank? ==> r == Failure(NullPointer)
    ensures listing.Malformed? ==> r == Success(None)
    ensures listing.Elements? ==>
      (r.Success? <==> forall i :: 0 <= i < |listing.elements| ==> ElementName(listing.elements[i]).Success?)
    ensures listing.Elements? && r.Success? ==> r.value == Some(LanguageFiles(Names(listing.elements)))
    ensures listing.Elements? && r.Failure? ==> Fetched(listing.elements) == Failure(r.error)
  {
    match listing
    case NoResponse =>
      return Success(Some([]));
    case Blank =>
      return Failure(NullPointer);
    case Malformed =>
      return Success(None);
    case Elements(elements) =>
      FetchedReadsEveryName(elements);
      var languages := [];
      var i := 0;
      assert elements[0..] == elements;
      assert Fetched(elements).Success? ==> [] + Fetched(elements).value == Fetched(elements).value;
      while i < |elements|
        invariant 0 <= i <= |elements|
        invariant Fetched(elements) == Then(languages, Fetched(elements[i..]))
      {
        FetchedStep(elements, i, languages);
        var name := ElementName(elements[i]);
        if name.Failure? {
          return Failure(name.error);
        }
        if IsLanguageFile(name.value) {
          languages := languages + [name.value];
        } else {
          assert languages + [] == languages;
        }
        i := i + 1;
      }
      assert elements[i..] == [];
      assert languages + [] == languages;
      return Success(Some(languages));
  }
}
