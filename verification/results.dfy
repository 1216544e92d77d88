/** Option and Result values for the fallible operations of the converter. */
module Results {

  datatype Option<+T> = None | Some(value: T)

  datatype Result<+T, +E> = Ok(value: T) | Err(error: E)

  /** The reasons the converter gives up on an input, one per `bail!` of the source. */
  datatype Failure =
    | NotAMarkdownHeader      // the text does not start with `#+\s+`
    | NoLicenceLine           // no prologue line holds `©` or `OGL`
    | MustStartWithNewline    // `parse` was handed text not starting with `\n`
    | EmptyList               // `list_to_table` was handed no items
    | NotAListItem            // `list_to_table` was handed a line that is not a list item
    | NoArticles              // the source holds no article
    | UnnumberedArticle       // an article name has no leading number
    | WrongExtension          // a visible file has an unexpected extension
}
