/** The parts of a WHATWG URL the crawler reads. URL parsing itself is not
    modelled: it is supplied as a function. */
module Urls {
  import opened Wrappers

  /** A parsed URL. `pathname` excludes the query string and the fragment;
      `href` is the serialized URL, which for a URL that parsed is never
      empty (it holds at least the scheme). The model does not impose this;
      `Crawl.CheckExternalPage` relies on it to read a returned redirect as
      truthy. */
  datatype Url = Url(hostname: string, pathname: string, href: string)

  /** `new URL(input, base)`, or `new URL(input)` when the base is `None`;
      `None` as result stands for the `TypeError` thrown on a string that
      does not parse. */
  type Resolver = (string, Option<string>) -> Option<Url>
}
