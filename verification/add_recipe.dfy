/**
 * The add-recipe page: the form's validation rules, the normalisation of its
 * fields into a recipe record, and the append of that record to the list
 * stored under the `recipes` key.
 */
module AddRecipe {
  import opened Wrappers
  import opened Strings
  import opened Types

  const TitleMessage := "Title must be at least 3 characters long"
  const DescriptionMessage := "Description must be at least 10 characters long"
  const ImageUrlMessage := "Please enter a valid image URL"
  const DefaultSource := "Personal Recipe"
  const FallbackImagePrefix := "https://source.unsplash.com/featured/800x600/?"
  const FallbackImageSuffix := ",cooking"
  const FallbackImageKeyword := "food"

  /** The form's fields as entered; `mediaType` is the selected tab, if any. */
  datatype RecipeInput = RecipeInput(
    title: string,
    description: string,
    source: Option<string>,
    tags: string,
    imageUrl: Option<string>,
    mediaType: Option<MediaType>,
    mediaContent: Option<string>,
    instructions: Option<string>,
    ingredients: Option<string>,
    prepTime: Option<string>,
    cookTime: Option<string>,
    servings: Option<int>)

  /** The tags `saveRecipe` may receive: a list, a comma-separated string, or neither. */
  datatype TagsValue = TagList(list: seq<string>) | TagText(text: string) | NoTags

  /** The validated form data `saveRecipe` receives. */
  datatype RecipeData = RecipeData(
    title: string,
    description: string,
    source: Option<string>,
    tags: TagsValue,
    imageUrl: Option<string>,
    mediaType: MediaType,
    mediaContent: Option<string>,
    instructions: Option<string>,
    ingredients: Option<string>,
    prepTime: Option<string>,
    cookTime: Option<string>,
    servings: Option<int>)

  /** What a submission of the form ends in. */
  datatype SubmitOutcome = Rejected(issues: seq<Issue>) | Added(recipe: Recipe) | SaveFailed

  // ---------------------------------------------------------------- field normalisation

  /**
   * `text.split(',').map(tag => tag.trim())`: one tag per comma-separated
   * piece, in order, each with the whitespace at its ends removed.
   */
  function NormalizeTags(text: string): (r: seq<string>)
    ensures |r| == |Split(text, ',')| == multiset(text)[','] + 1
    ensures forall k | 0 <= k < |r| :: r[k] == Trim(Split(text, ',')[k])
    ensures forall k | 0 <= k < |r| :: ',' !in r[k]
    ensures forall k | 0 <= k < |r| :: Tidy(r[k])
  {
    var pieces := Split(text, ',');
    SplitCount(text, ',');
    SplitPiecesFree(text, ',');
    var r := seq(|pieces|, k requires 0 <= k < |pieces| => Trim(pieces[k]));
    assert forall k | 0 <= k < |r| :: ',' !in r[k] by {
      forall k | 0 <= k < |r| ensures ',' !in r[k] {
        var i :| TrimmedAt(pieces[k], r[k], i);
        assert forall c | c in r[k] :: c in pieces[k];
      }
    }
    r
  }

  /** The tags of the new record: a list is kept, a string is normalised, anything else gives none. */
  function FormattedTags(v: TagsValue): (r: seq<string>)
    ensures v.TagList? ==> r == v.list
    ensures v.TagText? ==> r == NormalizeTags(v.text)
    ensures v.NoTags? ==> r == []
  {
    match v
    case TagList(list) => list
    case TagText(text) => NormalizeTags(text)
    case NoTags => []
  }

  /**
   * `value ? value.split('\n') : []`: the lines of a non-empty text, kept as
   * they are, so that joining them with newlines gives the text back.
   */
  function Lines(value: Option<string>): (r: seq<string>)
    ensures value.None? || value.value == "" ==> r == []
    ensures value.Some? && value.value != "" ==>
      |r| == multiset(value.value)['\n'] + 1
      && Join(r, '\n') == value.value
      && forall k | 0 <= k < |r| :: '\n' !in r[k]
  {
    if value.Some? && value.value != "" then
      SplitCount(value.value, '\n');
      JoinSplit(value.value, '\n');
      SplitPiecesFree(value.value, '\n');
      Split(value.value, '\n')
    else []
  }

  /** `source || 'Personal Recipe'`. */
  function SourceOrDefault(source: Option<string>): (r: string)
    ensures r != ""
    ensures source.Some? && source.value != "" ==> r == source.value
    ensures source.None? || source.value == "" ==> r == DefaultSource
  {
    if source.Some? && source.value != "" then source.value else DefaultSource
  }

  /** `tags[0]?.toLowerCase() || 'food'`: the keyword of the generated image URL. */
  function ImageKeyword(tags: seq<string>): (r: string)
    ensures r != ""
    ensures |tags| > 0 && tags[0] != "" ==> r == Lower(tags[0])
    ensures |tags| == 0 || tags[0] == "" ==> r == FallbackImageKeyword
  {
    if |tags| > 0 && Lower(tags[0]) != "" then Lower(tags[0]) else FallbackImageKeyword
  }

  /**
   * `imagePreview || imageUrl || <generated>`: an uploaded image first, then
   * the URL field, then a stock-photo URL built from the first tag. The
   * stored image is never empty.
   */
  function ImageUrlFor(preview: Option<string>, imageUrl: Option<string>, tags: seq<string>): (r: string)
    ensures r != ""
    ensures preview.Some? && preview.value != "" ==> r == preview.value
    ensures (preview.None? || preview.value == "") && imageUrl.Some? && imageUrl.value != "" ==>
      r == imageUrl.value
    ensures (preview.None? || preview.value == "") && (imageUrl.None? || imageUrl.value == "") ==>
      r == FallbackImagePrefix + ImageKeyword(tags) + FallbackImageSuffix
  {
    if preview.Some? && preview.value != "" then preview.value
    else if imageUrl.Some? && imageUrl.value != "" then imageUrl.value
    else FallbackImagePrefix + ImageKeyword(tags) + FallbackImageSuffix
  }

  /**
   * The record `saveRecipe` builds. Every saved recipe has a source, an
   * image, both line lists and a media type.
   */
  function BuildRecipe(data: RecipeData, preview: Option<string>, id: int): (r: Recipe)
    ensures r.id == id && r.title == data.title && r.description == data.description
    ensures r.source == SourceOrDefault(data.source) && r.source != ""
    ensures r.tags == FormattedTags(data.tags)
    ensures r.imageUrl == ImageUrlFor(preview, data.imageUrl, r.tags) && r.imageUrl != ""
    ensures r.prepTime == data.prepTime && r.cookTime == data.cookTime && r.servings == data.servings
    ensures r.instructions == Some(Lines(data.instructions)) && r.ingredients == Some(Lines(data.ingredients))
    ensures r.mediaType == Some(data.mediaType) && r.mediaUrl == data.mediaContent
  {
    var tags := FormattedTags(data.tags);
    Recipe(
      id, data.title, data.description,
      SourceOrDefault(data.source),
      ImageUrlFor(preview, data.imageUrl, tags),
      tags,
      Some(Lines(data.instructions)),
      Some(Lines(data.ingredients)),
      data.prepTime, data.cookTime, data.servings,
      Some(data.mediaType),
      data.mediaContent)
  }

  // ---------------------------------------------------------------- validation

  /** The image URL field is acceptable: absent, empty, or a well-formed URL. */
  predicate ImageUrlAcceptable(imageUrl: Option<string>, imageUrlIsUrl: bool) {
    imageUrl.None? || imageUrl.value == "" || imageUrlIsUrl
  }

  /**
   * The issues the form schema reports, field by field. `imageUrlIsUrl` is
   * the outcome of the URL syntax check on the image URL field.
   */
  function RecipeIssues(input: RecipeInput, imageUrlIsUrl: bool): (r: seq<Issue>)
    ensures r == [] <==>
      |input.title| >= 3 && |input.description| >= 10 && ImageUrlAcceptable(input.imageUrl, imageUrlIsUrl)
    ensures Issue("title", TitleMessage) in r <==> |input.title| < 3
    ensures Issue("description", DescriptionMessage) in r <==> |input.description| < 10
    ensures Issue("imageUrl", ImageUrlMessage) in r <==> !ImageUrlAcceptable(input.imageUrl, imageUrlIsUrl)
    ensures |r| <= 3
  {
    (if |input.title| < 3 then [Issue("title", TitleMessage)] else [])
    + (if |input.description| < 10 then [Issue("description", DescriptionMessage)] else [])
    + (if !ImageUrlAcceptable(input.imageUrl, imageUrlIsUrl) then [Issue("imageUrl", ImageUrlMessage)] else [])
  }

  /**
   * The form schema: either the issues, or the data with the tags already
   * split and trimmed and the media type defaulting to text.
   */
  function ValidateRecipe(input: RecipeInput, imageUrlIsUrl: bool): (r: Result<RecipeData, seq<Issue>>)
    ensures r.Failure? <==> RecipeIssues(input, imageUrlIsUrl) != []
    ensures r.Failure? ==> r.error == RecipeIssues(input, imageUrlIsUrl)
    ensures r.Success? ==>
      r.value.title == input.title && r.value.description == input.description
      && r.value.tags == TagList(NormalizeTags(input.tags))
      && r.value.mediaType == (if input.mediaType.Some? then input.mediaType.value else Text)
    ensures r.Success? ==>
      r.value.source == input.source && r.value.imageUrl == input.imageUrl
      && r.value.mediaContent == input.mediaContent
      && r.value.instructions == input.instructions && r.value.ingredients == input.ingredients
      && r.value.prepTime == input.prepTime && r.value.cookTime == input.cookTime
      && r.value.servings == input.servings
  {
    var issues := RecipeIssues(input, imageUrlIsUrl);
    if issues != [] then Failure(issues)
    else
      Success(RecipeData(
        input.title, input.description, input.source,
        TagList(NormalizeTags(input.tags)),
        input.imageUrl,
        input.mediaType.GetOr(Text),
        input.mediaContent, input.instructions, input.ingredients,
        input.prepTime, input.cookTime, input.servings))
  }

  // ---------------------------------------------------------------- examples

  /**
   * Tags typed as comma-separated words with any whitespace around each word
   * ("Dessert, Chocolate, Easy") come back as exactly those words, in order.
   */
  lemma TagsRoundTrip(words: seq<string>, before: seq<string>, after: seq<string>)
    requires |words| >= 1 && |before| == |words| && |after| == |words|
    requires forall k | 0 <= k < |words| :: ',' !in words[k] && Tidy(words[k])
    requires forall k | 0 <= k < |words| :: AllWhitespace(before[k]) && AllWhitespace(after[k])
    ensures NormalizeTags(Join(seq(|words|, k requires 0 <= k < |words| => before[k] + words[k] + after[k]), ',')) == words
  {
    var pieces := seq(|words|, k requires 0 <= k < |words| => before[k] + words[k] + after[k]);
    forall k | 0 <= k < |pieces| ensures ',' !in pieces[k] {
      assert !IsWhitespace(',');
      assert forall c | c in before[k] :: IsWhitespace(c);
      assert forall c | c in after[k] :: IsWhitespace(c);
    }
    SplitJoin(pieces, ',');
    forall k | 0 <= k < |words| ensures Trim(pieces[k]) == words[k] {
      TrimPadded(before[k], words[k], after[k]);
    }
  }

  /** Two lines of ingredients give two entries; missing instructions give none. */
  lemma LinesExample()
    ensures Lines(Some("2 cups flour\n1 cup sugar")) == ["2 cups flour", "1 cup sugar"]
    ensures Lines(None) == []
  {
    var lines := ["2 cups flour", "1 cup sugar"];
    assert Join(lines, '\n') == "2 cups flour\n1 cup sugar" by {
      assert Join(lines[1..], '\n') == "1 cup sugar";
      assert Join(lines, '\n') == lines[0] + ['\n'] + Join(lines[1..], '\n');
    }
    SplitJoin(lines, '\n');
  }

  // ---------------------------------------------------------------- the stored list

  class RecipeStore {
    /** The `recipes` key; `None` when absent. */
    var stored: Option<seq<Recipe>>

    constructor (stored: Option<seq<Recipe>>)
      ensures this.stored == stored
    {
      this.stored := stored;
    }

    /** The list as loaded: an absent key reads as the empty list. */
    function Recipes(): (r: seq<Recipe>)
      reads this
      ensures stored.None? ==> r == []
      ensures stored.Some? ==> r == stored.value
    {
      if stored.None? then [] else stored.value
    }

    /**
     * `saveRecipe`: load the list, append the new record, write the list
     * back, and return the record. `fault` is a storage read (parse) or
     * write that throws; the key then keeps its old value.
     */
    method SaveRecipe(data: RecipeData, preview: Option<string>, id: int, fault: bool) returns (r: Option<Recipe>)
      modifies this
      ensures fault ==> r == None && stored == old(stored)
      ensures !fault ==>
        r == Some(BuildRecipe(data, preview, id))
        && stored == Some(old(Recipes()) + [r.value])
        && Recipes()[|Recipes()| - 1] == r.value
    {
      if fault {
        return None;
      }
      var recipes := Recipes();
      var newRecipe := BuildRecipe(data, preview, id);
      recipes := recipes + [newRecipe];
      stored := Some(recipes);
      r := Some(newRecipe);
    }

    /**
     * `onSubmit` behind the form schema: an invalid form never reaches
     * `saveRecipe`; a valid one is saved, and a thrown storage fault is
     * reported as a failed save.
     */
    method Submit(input: RecipeInput, imageUrlIsUrl: bool, preview: Option<string>, id: int, fault: bool)
      returns (outcome: SubmitOutcome)
      modifies this
      ensures RecipeIssues(input, imageUrlIsUrl) != [] ==>
        outcome == Rejected(RecipeIssues(input, imageUrlIsUrl)) && stored == old(stored)
      ensures outcome.Added? ==>
        !fault && RecipeIssues(input, imageUrlIsUrl) == []
        && outcome.recipe == BuildRecipe(ValidateRecipe(input, imageUrlIsUrl).value, preview, id)
        && outcome.recipe.tags == NormalizeTags(input.tags)
        && stored == Some(old(Recipes()) + [outcome.recipe])
      ensures outcome.SaveFailed? ==> fault && stored == old(stored)
      ensures outcome.Rejected? <==> RecipeIssues(input, imageUrlIsUrl) != []
      ensures RecipeIssues(input, imageUrlIsUrl) == [] ==> (outcome.Added? <==> !fault)
    {
      var validated := ValidateRecipe(input, imageUrlIsUrl);
      if validated.Failure? {
        return Rejected(validated.error);
      }
      var saved := SaveRecipe(validated.value, preview, id, fault);
      if saved.None? {
        return SaveFailed;
      }
      outcome := Added(saved.value);
    }
  }
}
