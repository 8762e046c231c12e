/**
 * The public news page's text helpers (src/pages/News.tsx): the excerpt
 * shown on a post card and the localised publication date. The per-language
 * title and body are `Posts.LocalizedTitle` and `Posts.LocalizedContent`.
 */
module News {
  import opened Common

  /** The characters `/[#*_`]/g` removes. */
  predicate IsMarkdownMark(c: char)
  {
    c == '#' || c == '*' || c == '_' || c == '`'
  }

  predicate MarkFree(s: string)
  {
    forall i | 0 <= i < |s| :: !IsMarkdownMark(s[i])
  }

  /** `replace(/[#*_`]/g, '')` */
  function StripMarkdown(s: string): (r: string)
    ensures |r| <= |s|
    ensures MarkFree(r)
    decreases |s|
  {
    if s == [] then []
    else (if IsMarkdownMark(s[0]) then [] else [s[0]]) + StripMarkdown(s[1..])
  }

  /** Text without markdown marks passes through unchanged, so stripping twice is stripping once. */
  lemma {:induction false} StripMarkFree(s: string)
    requires MarkFree(s)
    ensures StripMarkdown(s) == s
    decreases |s|
  {
    if s != [] {
      assert MarkFree(s[1..]);
      StripMarkFree(s[1..]);
      assert [s[0]] + s[1..] == s;
    }
  }

  /** Stripping works character by character: it distributes over concatenation. */
  lemma {:induction false} StripDistributes(s: string, t: string)
    ensures StripMarkdown(s + t) == StripMarkdown(s) + StripMarkdown(t)
    decreases |s|
  {
    if s != [] {
      assert (s + t)[1..] == s[1..] + t;
      StripDistributes(s[1..], t);
    } else {
      assert s + t == t;
    }
  }

  /** A single mark is deleted, and any other character kept. */
  lemma StripOne(c: char)
    ensures StripMarkdown([c]) == if IsMarkdownMark(c) then [] else [c]
  {
    assert [c][1..] == [];
  }

  const DefaultExcerptLength: nat := 150

  const Ellipsis := "..."

  /** `getExcerpt`: the stripped text when it fits; otherwise its first `maxLength` characters, trimmed, and "...". */
  function GetExcerpt(content: string, maxLength: nat): (r: string)
    ensures MarkFree(r)
    ensures |r| <= maxLength + 3
    ensures |StripMarkdown(content)| <= maxLength ==> r == StripMarkdown(content)
    ensures |StripMarkdown(content)| > maxLength ==>
              r == Trim(StripMarkdown(content)[..maxLength]) + Ellipsis
  {
    var stripped := StripMarkdown(content);
    if |stripped| <= maxLength then stripped
    else
      var cut := Trim(stripped[..maxLength]);
      assert MarkFree(cut) by {
        forall i | 0 <= i < |cut| ensures !IsMarkdownMark(cut[i]) {
          var k :| 0 <= k < |stripped[..maxLength]| && stripped[..maxLength][k] == cut[i];
          assert stripped[k] == cut[i];
        }
      }
      assert forall i | 0 <= i < |Ellipsis| :: Ellipsis[i] == '.';
      cut + Ellipsis
  }

  /** A short text without marks is its own excerpt. */
  lemma ShortExcerptUnchanged(content: string, maxLength: nat)
    requires MarkFree(content) && |content| <= maxLength
    ensures GetExcerpt(content, maxLength) == content
  {
    StripMarkFree(content);
  }

  /** `toLocaleDateString`'s locale: Georgian and Russian for "ka" and "ru", US English otherwise. */
  function DateLocale(language: string): (r: string)
    ensures r in {"ka-GE", "ru-RU", "en-US"}
    ensures language == "ka" ==> r == "ka-GE"
    ensures language == "ru" ==> r == "ru-RU"
    ensures language != "ka" && language != "ru" ==> r == "en-US"
  {
    if language == "ka" then "ka-GE" else if language == "ru" then "ru-RU" else "en-US"
  }

  /**
   * `formatDate`: nothing for a missing or empty date; otherwise the date as
   * `format` renders it (year, long month, day) in the language's locale.
   */
  function FormatDate(date: Option<string>, language: string, format: (string, string) -> string): (r: string)
    ensures !Present(date) ==> r == ""
    ensures Present(date) ==> r == format(date.value, DateLocale(language))
  {
    if Present(date) then format(date.value, DateLocale(language)) else ""
  }
}
