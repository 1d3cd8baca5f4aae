/** `RecipeManager`: the text encoding of a shaped recipe in the `ShapedRecipe`
    table (the shape rows joined by `;`, the ingredients as `c:MATERIAL;`
    entries) and the table itself, keyed by the item's name. */
module Recipes {
  import opened Common
  import opened JavaStrings
  import opened Inventory

  /** One row of the `ShapedRecipe` table, without its `item` key. */
  datatype StoredRecipe = StoredRecipe(pattern: string, ingredients: string)

  /** What `loadRecipe` reads back from a row: the shape rows and the
      ingredient of each character. */
  datatype Decoded = Decoded(shape: seq<string>, ingredients: map<char, Material>)

  /** The characters that stand for an ingredient, with that ingredient. */
  function Present(ingredients: map<char, Option<Material>>): (r: map<char, Material>)
    ensures forall c :: c in r <==> c in ingredients && ingredients[c].Some?
    ensures forall c :: c in r ==> ingredients[c] == Some(r[c])
  {
    map c | c in ingredients && ingredients[c].Some? :: ingredients[c].value
  }

  /** The pattern column: the shape rows joined by `;`. */
  function EncodePattern(shape: seq<string>): string
  {
    Join(shape, ";")
  }

  /** The text of one ingredient entry, without its `;` terminator. */
  function EntryText(c: char, m: Material): string
  {
    [c] + ":" + m
  }

  /** The ingredients column built by walking the entries in `order`: each
      character with an ingredient contributes `c:MATERIAL;`. */
  function EncodeIngredients(order: seq<char>, ingredients: map<char, Option<Material>>): string
    requires forall i :: 0 <= i < |order| ==> order[i] in ingredients
  {
    if order == [] then ""
    else
      var c := order[|order| - 1];
      EncodeIngredients(order[..|order| - 1], ingredients)
        + (if ingredients[c].Some? then EntryText(c, ingredients[c].value) + ";" else "")
  }

  /** One `c:MATERIAL` segment: the first character of the text before the
      first `:` and the text after it. An empty first part fails at
      `charAt(0)`, a missing second part at `entry[1]`. */
  function DecodeEntry(segment: string): (r: Result<(char, Material), Fault>)
    ensures r.Success? ==> |segment| > 0 && r.value.0 == segment[0]
    ensures r.Failure? ==> r.error == IndexOutOfBounds
  {
    var parts := JavaSplit(segment, ':');
    if |parts| == 0 || parts[0] == "" then Failure(IndexOutOfBounds)
    else if |parts| < 2 then Failure(IndexOutOfBounds)
    else
      assert parts[0][0] == segment[0] by { SplitFirstChar(segment, ':'); }
      Success((parts[0][0], parts[1]))
  }

  /** The ingredient map filled from `segments` in order; a later segment for
      the same character replaces an earlier one. */
  function DecodeSegments(segments: seq<string>): (r: Result<map<char, Material>, Fault>)
    ensures r.Failure? ==> r.error == IndexOutOfBounds
  {
    if segments == [] then Success(map[])
    else
      match DecodeSegments(segments[..|segments| - 1])
      case Failure(e) => Failure(e)
      case Success(m) =>
        match DecodeEntry(segments[|segments| - 1])
        case Failure(e) => Failure(e)
        case Success(entry) => Success(m[entry.0 := entry.1])
  }

  /** The ingredients column decoded as `loadRecipe` does. */
  function DecodeIngredients(text: string): Result<map<char, Material>, Fault>
  {
    DecodeSegments(JavaSplit(text, ';'))
  }

  /** A table row decoded: the pattern split on `;`, then the ingredients. */
  function DecodeRow(row: StoredRecipe): (r: Result<Decoded, Fault>)
    ensures r.Success? ==> r.value.shape == JavaSplit(row.pattern, ';')
  {
    match DecodeIngredients(row.ingredients)
    case Failure(e) => Failure(e)
    case Success(m) => Success(Decoded(JavaSplit(row.pattern, ';'), m))
  }

  /** A shape `ShapedRecipe.shape` accepts: one to three rows, each of one to
      three characters and all as long as the first. */
  predicate ShapeAccepted(shape: seq<string>)
  {
    1 <= |shape| <= 3 && forall i :: 0 <= i < |shape| ==> 1 <= |shape[i]| <= 3 && |shape[i]| == |shape[0]|
  }

  /** The characters that occur in the rows of a shape. */
  function ShapeChars(shape: seq<string>): set<char>
  {
    set i, j | 0 <= i < |shape| && 0 <= j < |shape[i]| :: shape[i][j]
  }

  /** The end of `loadRecipe`: `new ShapedRecipe(key, result)`, then
      `shape(rows)`, which gives every shape character no ingredient, then
      `setIngredient` for each decoded character. A shape that `shape`
      refuses, or an ingredient character that is not in the shape, throws
      IllegalArgumentException. */
  function BuildRecipe(key: NamespacedKey, result: ItemStack, d: Decoded): (r: Result<ShapedRecipe, Fault>)
    ensures r.Success? <==> ShapeAccepted(d.shape) && d.ingredients.Keys <= ShapeChars(d.shape)
    ensures r.Failure? ==> r.error == IllegalArgument
    ensures r.Success? ==>
      && r.value.key == key && r.value.result == result && r.value.shape == d.shape
      && r.value.ingredients.Keys == ShapeChars(d.shape)
      && Present(r.value.ingredients) == d.ingredients
  {
    if !ShapeAccepted(d.shape) || !(d.ingredients.Keys <= ShapeChars(d.shape)) then Failure(IllegalArgument)
    else
      var ingredients := map c | c in ShapeChars(d.shape) :: if c in d.ingredients then Some(d.ingredients[c]) else None;
      assert Present(ingredients) == d.ingredients;
      Success(ShapedRecipe(key, result, d.shape, ingredients))
  }

  /** A recipe as `ShapedRecipe` holds one (an accepted shape, an entry for
      each shape character), rebuilt from its shape and its present
      ingredients, comes back unchanged. */
  lemma BuildRebuilds(recipe: ShapedRecipe)
    requires ShapeAccepted(recipe.shape) && recipe.ingredients.Keys == ShapeChars(recipe.shape)
    ensures BuildRecipe(recipe.key, recipe.result, Decoded(recipe.shape, Present(recipe.ingredients))) == Success(recipe)
  {
    var built := BuildRecipe(recipe.key, recipe.result, Decoded(recipe.shape, Present(recipe.ingredients)));
    assert built.Success?;
    assert forall c :: c in recipe.ingredients ==> built.value.ingredients[c] == recipe.ingredients[c];
    assert built.value.ingredients == recipe.ingredients;
  }

  /** The first piece of a split starts with the text's first character,
      unless that character is the separator. */
  lemma {:induction false} SplitFirstChar(s: string, d: char)
    requires |JavaSplit(s, d)| > 0 && JavaSplit(s, d)[0] != ""
    ensures |s| > 0 && JavaSplit(s, d)[0][0] == s[0]
  {
    if d !in s {
    } else {
      var all := SplitAll(s, d);
      var kept := DropTrailingEmpty(all);
      assert kept == all[..|kept|];
      assert JavaSplit(s, d)[0] == all[0];
      if s[0] != d {
        assert all[0] == [s[0]] + SplitAll(s[1..], d)[0];
      }
    }
  }

  /** A shape survives the pattern column when it has rows and every row is
      non-empty and free of `;` (otherwise `split` merges or drops rows). */
  predicate WellFormedShape(shape: seq<string>)
  {
    |shape| > 0 && forall i :: 0 <= i < |shape| ==> |shape[i]| > 0 && ';' !in shape[i]
  }

  /** Ingredients survive the ingredients column when no key is `;` or `:` and
      every material name is non-empty and free of both. */
  predicate WellFormedIngredients(ingredients: map<char, Option<Material>>)
  {
    forall c :: c in ingredients ==>
      c != ';' && c != ':'
      && (ingredients[c].Some? ==>
            |ingredients[c].value| > 0 && ';' !in ingredients[c].value && ':' !in ingredients[c].value)
  }

  /** Once a prefix of the segments fails to decode, so do all of them. */
  lemma {:induction false} DecodePrefixFailure(segments: seq<string>, n: nat)
    requires n <= |segments|
    requires DecodeSegments(segments[..n]).Failure?
    ensures DecodeSegments(segments).Failure?
    decreases |segments| - n
  {
    if n < |segments| {
      assert segments[..n + 1][..n] == segments[..n];
      DecodePrefixFailure(segments, n + 1);
    } else {
      assert segments[..n] == segments;
    }
  }

  /** The pattern column round-trips a well-formed shape. */
  lemma PatternRoundTrip(shape: seq<string>)
    requires WellFormedShape(shape)
    ensures JavaSplit(EncodePattern(shape), ';') == shape
  {
    JavaSplitJoin(shape, ';');
  }

  /** Segments each followed by the terminator `d`. */
  function Terminated(segments: seq<string>, d: char): string
  {
    if segments == [] then "" else segments[0] + [d] + Terminated(segments[1..], d)
  }

  /** One more terminated segment goes at the end. */
  lemma {:induction false} TerminatedSnoc(segments: seq<string>, x: string, d: char)
    ensures Terminated(segments + [x], d) == Terminated(segments, d) + x + [d]
  {
    if segments == [] {
      assert segments + [x] == [x];
      assert [x][1..] == [];
    } else {
      assert (segments + [x])[1..] == segments[1..] + [x];
      TerminatedSnoc(segments[1..], x, d);
    }
  }

  /** Splitting terminated segments gives the segments and one empty piece. */
  lemma {:induction false} SplitAllTerminated(segments: seq<string>, d: char)
    requires forall i :: 0 <= i < |segments| ==> d !in segments[i]
    ensures SplitAll(Terminated(segments, d), d) == segments + [""]
  {
    if segments != [] {
      SplitAllTerminated(segments[1..], d);
      SplitAllAt(segments[0], d, Terminated(segments[1..], d));
      assert [segments[0]] + (segments[1..] + [""]) == segments + [""];
    }
  }

  /** `split` undoes the termination of non-empty segments free of `d`. */
  lemma JavaSplitTerminated(segments: seq<string>, d: char)
    requires |segments| > 0
    requires forall i :: 0 <= i < |segments| ==> |segments[i]| > 0 && d !in segments[i]
    ensures JavaSplit(Terminated(segments, d), d) == segments
  {
    SplitAllTerminated(segments, d);
    var s := Terminated(segments, d);
    assert s == segments[0] + [d] + Terminated(segments[1..], d);
    assert s[|segments[0]|] == d;
    var all := segments + [""];
    assert DropTrailingEmpty(all) == DropTrailingEmpty(all[..|all| - 1]);
    assert all[..|all| - 1] == segments;
  }

  /** The entry segments written for the characters of `order` that have an ingredient. */
  function Segments(order: seq<char>, ingredients: map<char, Option<Material>>): (r: seq<string>)
    requires forall i :: 0 <= i < |order| ==> order[i] in ingredients
    ensures |r| <= |order|
  {
    if order == [] then []
    else
      var c := order[|order| - 1];
      Segments(order[..|order| - 1], ingredients)
        + (if ingredients[c].Some? then [EntryText(c, ingredients[c].value)] else [])
  }

  /** The ingredients column is the written segments, each followed by `;`. */
  lemma {:induction false} EncodeIsTerminated(order: seq<char>, ingredients: map<char, Option<Material>>)
    requires forall i :: 0 <= i < |order| ==> order[i] in ingredients
    ensures EncodeIngredients(order, ingredients) == Terminated(Segments(order, ingredients), ';')
  {
    if order != [] {
      var init := order[..|order| - 1];
      var c := order[|order| - 1];
      EncodeIsTerminated(init, ingredients);
      if ingredients[c].Some? {
        var x := EntryText(c, ingredients[c].value);
        TerminatedSnoc(Segments(init, ingredients), x, ';');
        assert Segments(order, ingredients) == Segments(init, ingredients) + [x];
        assert EncodeIngredients(order, ingredients) == EncodeIngredients(init, ingredients) + (x + ";");
        var t := Terminated(Segments(init, ingredients), ';');
        assert EncodeIngredients(init, ingredients) == t;
        assert t + (x + ";") == t + x + [';'];
        assert Terminated(Segments(init, ingredients) + [x], ';') == t + x + [';'];
      } else {
        assert Segments(order, ingredients) == Segments(init, ingredients) + [];
        assert Segments(init, ingredients) + [] == Segments(init, ingredients);
        assert EncodeIngredients(order, ingredients) == EncodeIngredients(init, ingredients) + "";
        assert EncodeIngredients(init, ingredients) + "" == EncodeIngredients(init, ingredients);
      }
    }
  }

  /** One written entry decodes to its character and material. */
  lemma EntryRoundTrip(c: char, m: Material)
    requires c != ':' && |m| > 0 && ':' !in m
    ensures DecodeEntry(EntryText(c, m)) == Success((c, m))
  {
    assert Join([[c], m], [':']) == EntryText(c, m);
    JavaSplitJoin([[c], m], ':');
  }

  /** The present ingredients of the characters listed in `order`. */
  function Listed(order: seq<char>, ingredients: map<char, Option<Material>>): (r: map<char, Material>)
    requires forall i :: 0 <= i < |order| ==> order[i] in ingredients
    ensures forall c :: c in r <==> c in order && ingredients[c].Some?
    ensures forall c :: c in r ==> ingredients[c] == Some(r[c])
  {
    if order == [] then map[]
    else
      var init := order[..|order| - 1];
      var c := order[|order| - 1];
      var before := Listed(init, ingredients);
      assert forall x :: x in order <==> x in init || x == c;
      if ingredients[c].Some? then before[c := ingredients[c].value] else before
  }

  /** Every written segment is non-empty and free of `;`. */
  lemma {:induction false} SegmentsWellFormed(order: seq<char>, ingredients: map<char, Option<Material>>)
    requires forall i :: 0 <= i < |order| ==> order[i] in ingredients
    requires WellFormedIngredients(ingredients)
    ensures forall i :: 0 <= i < |Segments(order, ingredients)| ==>
      |Segments(order, ingredients)[i]| > 0 && ';' !in Segments(order, ingredients)[i]
  {
    if order != [] {
      var init := order[..|order| - 1];
      var c := order[|order| - 1];
      SegmentsWellFormed(init, ingredients);
      if ingredients[c].Some? {
        assert ';' !in EntryText(c, ingredients[c].value);
      }
    }
  }

  /** Decoding the segments of `order` gives the ingredients of the
      characters listed in `order`. */
  lemma {:induction false} SegmentsDecode(order: seq<char>, ingredients: map<char, Option<Material>>)
    requires forall i :: 0 <= i < |order| ==> order[i] in ingredients
    requires WellFormedIngredients(ingredients)
    ensures DecodeSegments(Segments(order, ingredients)) == Success(Listed(order, ingredients))
  {
    if order != [] {
      var init := order[..|order| - 1];
      var c := order[|order| - 1];
      SegmentsDecode(init, ingredients);
      var segs := Segments(order, ingredients);
      if ingredients[c].Some? {
        var m := ingredients[c].value;
        EntryRoundTrip(c, m);
        assert segs == Segments(init, ingredients) + [EntryText(c, m)];
        assert segs[..|segs| - 1] == Segments(init, ingredients);
        assert DecodeSegments(segs) == Success(Listed(init, ingredients)[c := m]);
      } else {
        assert segs == Segments(init, ingredients);
      }
    }
  }

  /** Some segment is written exactly when some listed character has an ingredient. */
  lemma {:induction false} SegmentsEmpty(order: seq<char>, ingredients: map<char, Option<Material>>)
    requires forall i :: 0 <= i < |order| ==> order[i] in ingredients
    ensures Segments(order, ingredients) == [] <==> Listed(order, ingredients) == map[]
  {
    if order != [] {
      var init := order[..|order| - 1];
      var c := order[|order| - 1];
      SegmentsEmpty(init, ingredients);
      if ingredients[c].Some? {
        assert c in Listed(order, ingredients);
      } else {
        assert Segments(order, ingredients) == Segments(init, ingredients) + [];
      }
    }
  }

  /** The empty ingredients column fails to decode at `charAt(0)`. */
  lemma DecodeEmptyColumn()
    ensures DecodeIngredients("") == Failure(IndexOutOfBounds)
  {
    assert JavaSplit("", ';') == [""];
    assert JavaSplit("", ':') == [""];
  }

  /** The ingredients column round-trips: a well-formed ingredient map written
      in any iteration order decodes to its present ingredients; with none
      present the column is empty and decoding it fails at `charAt(0)`. */
  lemma IngredientsRoundTrip(order: seq<char>, ingredients: map<char, Option<Material>>)
    requires Enumerates(order, ingredients.Keys)
    requires WellFormedIngredients(ingredients)
    ensures Present(ingredients) == map[] <==> EncodeIngredients(order, ingredients) == ""
    ensures DecodeIngredients(EncodeIngredients(order, ingredients))
         == if Present(ingredients) == map[] then Failure(IndexOutOfBounds) else Success(Present(ingredients))
  {
    var segs := Segments(order, ingredients);
    EncodeIsTerminated(order, ingredients);
    EnumeratedKeys(order, ingredients.Keys);
    assert Listed(order, ingredients) == Present(ingredients);
    SegmentsEmpty(order, ingredients);
    if segs == [] {
      DecodeEmptyColumn();
    } else {
      SegmentsDecode(order, ingredients);
      SegmentsWellFormed(order, ingredients);
      JavaSplitTerminated(segs, ';');
      assert |Terminated(segs, ';')| > 0;
    }
  }

  /** The whole row round-trips: a well-formed recipe with at least one
      ingredient, written in any iteration order of its ingredient map, reads
      back as its shape and its present ingredients. */
  lemma RowRoundTrip(recipe: ShapedRecipe, order: seq<char>)
    requires WellFormedShape(recipe.shape) && WellFormedIngredients(recipe.ingredients)
    requires Enumerates(order, recipe.ingredients.Keys)
    requires Present(recipe.ingredients) != map[]
    ensures DecodeRow(StoredRecipe(EncodePattern(recipe.shape), EncodeIngredients(order, recipe.ingredients)))
         == Success(Decoded(recipe.shape, Present(recipe.ingredients)))
  {
    PatternRoundTrip(recipe.shape);
    IngredientsRoundTrip(order, recipe.ingredients);
  }

  /** The `ShapedRecipe` table, keyed by item name (the column is UNIQUE, so a
      name has at most one row), and whether the database answers at all. */
  class RecipeStore {
    var rows: map<string, StoredRecipe>
    var online: bool

    constructor(online: bool)
      ensures rows == map[] && this.online == online
    {
      rows := map[];
      this.online := online;
    }

    /** What `loadRecipe` answers for the item named `name`: a storage fault
        when the database is down, nothing when no row exists, and otherwise
        the decoded row or the exception decoding it raises. */
    function Lookup(name: string): (r: Result<Option<Decoded>, Fault>)
      reads this
      ensures r == Success(None) <==> online && name !in rows
      ensures r == Failure(Storage) <==> !online
    {
      if !online then Failure(Storage)
      else if name !in rows then Success(None)
      else match DecodeRow(rows[name])
        case Failure(e) => Failure(e)
        case Success(d) => Success(Some(d))
    }

    /** `saveRecipe`: `REPLACE INTO` the row of `name` with the joined shape
        and the ingredient entries in the map's iteration order. */
    method SaveRecipe(name: string, recipe: ShapedRecipe) returns (r: Outcome<Fault>)
      modifies this
      ensures online == old(online)
      ensures !online ==> r == Fail(Storage) && rows == old(rows)
      ensures online ==>
        && r == Pass
        && name in rows && rows == old(rows)[name := rows[name]]
        && rows[name].pattern == EncodePattern(recipe.shape)
        && exists order :: Enumerates(order, recipe.ingredients.Keys)
             && rows[name].ingredients == EncodeIngredients(order, recipe.ingredients)
    {
      if !online {
        return Fail(Storage);
      }
      var pattern := Join(recipe.shape, ";");
      var order := Enumerate(recipe.ingredients.Keys);
      EnumeratedKeys(order, recipe.ingredients.Keys);
      var ingredients := "";
      for i := 0 to |order|
        invariant ingredients == EncodeIngredients(order[..i], recipe.ingredients)
      {
        var c := order[i];
        if recipe.ingredients[c].Some? {
          ingredients := ingredients + [c] + ":" + recipe.ingredients[c].value + ";";
        }
        assert order[..i + 1][..i] == order[..i];
      }
      assert order[..|order|] == order;
      rows := rows[name := StoredRecipe(pattern, ingredients)];
      return Pass;
    }

    /** `loadRecipe`: reads the row of `name` and decodes it, filling the
        ingredient map one segment at a time. */
    method LoadRecipe(name: string) returns (r: Result<Option<Decoded>, Fault>)
      ensures r == Lookup(name)
    {
      if !online {
        return Failure(Storage);
      }
      if name !in rows {
        return Success(None);
      }
      var row := rows[name];
      var shape := JavaSplit(row.pattern, ';');
      var segments := JavaSplit(row.ingredients, ';');
      var ingredientMap: map<char, Material> := map[];
      var i := 0;
      while i < |segments|
        invariant 0 <= i <= |segments|
        invariant DecodeSegments(segments[..i]) == Success(ingredientMap)
      {
        var entry := JavaSplit(segments[i], ':');
        assert segments[..i + 1][..i] == segments[..i];
        if |entry| == 0 || entry[0] == "" || |entry| < 2 {
          DecodePrefixFailure(segments, i + 1);
          return Failure(IndexOutOfBounds);
        }
        SplitFirstChar(segments[i], ':');
        ingredientMap := ingredientMap[entry[0][0] := entry[1]];
        i := i + 1;
      }
      assert segments[..i] == segments;
      return Success(Some(Decoded(shape, ingredientMap)));
    }

    /** `isRecipePresent`: whether a row exists for `name`. */
    method IsRecipePresent(name: string) returns (r: Result<bool, Fault>)
      ensures !online ==> r == Failure(Storage)
      ensures online ==> r == Success(name in rows)
    {
      if !online {
        return Failure(Storage);
      }
      return Success(name in rows);
    }
  }
}
