/** The record the generator keeps for each blog post. */
module Posts {
  import opened Wrappers

  /** `postKey` is the date digits used for ordering; `nextUrl` points to the
      newer neighbour and `prevUrl` to the older one, `None` for `null`. */
  datatype PostInfo = PostInfo(
    postKey: string,
    postDate: string,
    title: string,
    content: string,
    url: string,
    nextUrl: Option<string>,
    prevUrl: Option<string>)

  function Key(p: PostInfo): string { p.postKey }
}
