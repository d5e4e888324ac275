/** What the scripts read out of `yaml.safe_load`. The loader itself is not
    modelled: a `Loader` is any triple of total functions from document text to
    the parts of the parsed document that the scripts look at. */
module Yaml {
  import opened Site

  /** A front-matter block once parsed. */
  datatype FrontMatterDoc =
    | Malformed                          // safe_load raised a YAMLError
    | Parsed(permalink: Option<string>)  // the permalink when the document is a
                                         // mapping whose `permalink` value is a string

  /** The value under one key of a mapping, where the scripts expect a
      string: the key is absent, its value is null (`key:` with nothing
      after it), or a string. */
  datatype Field = Absent | Null | Str(value: string)
  {
    /** `mapping.get(key, default)`, with Python's None as `None`. */
    function Get(default: string): Option<string> {
      match this
      case Absent => Some(default)
      case Null => None
      case Str(s) => Some(s)
    }
  }

  /** The value under the `author` key of `_config.yml`. */
  datatype Author =
    | NoAuthor                      // no `author` key
    | AuthorNull                    // `author:` with no value
    | AuthorText(text: string)      // a string
    | AuthorMapping(avatar: Field)  // a mapping, and its `avatar` entry

  /** The keys of `_config.yml` that the scripts consult. */
  datatype Config = Config(
    keys: set<string>,        // top-level keys present
    plugins: seq<string>,     // the `plugins` list, meaningful when "plugins" is a key
    author: Author,           // the `author` entry
    safeIsFalse: bool)        // `safe` is present and compares equal to False
  {
    /** `config.get('plugins', [])`. */
    function Plugins(): (r: seq<string>)
      ensures "plugins" !in keys ==> r == []
    {
      if "plugins" in keys then plugins else []
    }
  }

  datatype ConfigDoc =
    | ConfigMalformed(detail: string)   // safe_load raised a YAMLError
    | ConfigFailed                      // safe_load raised another error: a ValueError for a
                                        // date-like value that is no date (`2024-13-01`)
    | ConfigEmpty                       // an empty document: safe_load returned None
    | ConfigMapping(config: Config)
  {
    /** `safe_load` returned, whatever it returned. */
    predicate Loads() {
      ConfigEmpty? || ConfigMapping?
    }
  }

  /** One entry of the `main` list of `_data/navigation.yml`. */
  datatype NavItem = NavItem(title: Field, url: Field)
  {
    /** `item.get('title', 'Unknown')`. */
    function Title(): (r: Option<string>)
      ensures title.Absent? ==> r == Some("Unknown")
      ensures r.None? <==> title.Null?
    {
      title.Get("Unknown")
    }

    /** `item.get('url', '')`. */
    function Url(): (r: Option<string>)
      ensures url.Absent? ==> r == Some("")
      ensures r.None? <==> url.Null?
    {
      url.Get("")
    }
  }

  /** Some entry has a null `url`. */
  predicate SomeUrlNull(items: seq<NavItem>) {
    exists i :: 0 <= i < |items| && items[i].url.Null?
  }

  /** A navigation document. A `main` that is an empty string or an empty
      mapping is given as `NavMapping` with no entries: `len` of it is 0 and
      iterating over it does nothing, as for an empty list. */
  datatype NavDoc =
    | NavMalformed(detail: string)      // safe_load raised a YAMLError
    | NavFailed                         // safe_load raised another error, such as a ValueError
    | NavEmpty                          // an empty document: safe_load returned None
    | NavMainNotList                    // a mapping whose `main` is null, a number, a boolean,
                                        // or a non-empty string or mapping
    | NavMapping(keys: set<string>, main: seq<NavItem>)
  {
    /** `nav.get('main', [])` on a mapping. */
    function Main(): seq<NavItem>
      requires NavMapping?
    {
      if "main" in keys then main else []
    }
  }

  /** `yaml.safe_load` seen through the three kinds of document the scripts load. */
  datatype Loader = Loader(
    frontMatter: string -> FrontMatterDoc,
    config: string -> ConfigDoc,
    navigation: string -> NavDoc)
}
