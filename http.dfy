/** The HTTP methods an API endpoint may declare (the `Method` constants of
    pkg/parser/api). */
module HttpMethods {
  const Options: string := "OPTIONS"
  const Get: string := "GET"
  const Post: string := "POST"
  const Patch: string := "PATCH"
  const Put: string := "PUT"
  const Delete: string := "DELETE"

  /** The six methods, all upper-case and none empty. */
  const Methods: set<string> := {Options, Get, Post, Patch, Put, Delete}
}
