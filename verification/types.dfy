/** Records shared by the pages: the recipe, and a form's validation issue. */
module Types {
  import opened Wrappers

  /** The three kinds of recipe the add-recipe form offers. */
  datatype MediaType = Text | Audio | Video

  /**
   * A recipe. The first eleven fields are the declared record; `mediaType`
   * and `mediaUrl` are the two extra fields the add-recipe form stores.
   */
  datatype Recipe = Recipe(
    id: int,
    title: string,
    description: string,
    source: string,
    imageUrl: string,
    tags: seq<string>,
    instructions: Option<seq<string>>,
    ingredients: Option<seq<string>>,
    prepTime: Option<string>,
    cookTime: Option<string>,
    servings: Option<int>,
    mediaType: Option<MediaType>,
    mediaUrl: Option<string>)

  /** A validation message, attached to the form field (`path`) it is about. */
  datatype Issue = Issue(path: string, message: string)
}
