/**
 * One entry of `data.json`, the list of dictionaries the four ingestion
 * scripts pass along. `ParseDigests` creates an entry with its link, title,
 * author, language, description and digest number/date; `FetchDates` adds
 * `Date`, `Classify` adds `Type` and `Tags`, `FetchImages` adds `Image`.
 * A key that a script has not written yet is `None`.
 */
module Records {
  import opened Wrappers
  import opened Text

  datatype Record = Record(
    link: string,
    title: string,
    author: string,
    language: string,
    description: string,
    digestNumber: Option<nat>,
    digestDate: Option<string>,
    date: Option<string>,
    recordType: Option<string>,
    tags: Option<seq<string>>,
    image: Option<string>)

  /**
   * `str(number)`: the key a digest has in `processed_digests.json` and in
   * `image_progress.json`, and the name of its image folder.
   */
  function DigestKey(number: nat): string {
    NatToString(number)
  }
}
