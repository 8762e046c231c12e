/**
 * The news post record (src/types/posts.ts) and the per-language selectors
 * that the public news page and the admin post list both use.
 */
module Posts {
  import opened Common

  /** A row of the `posts` table. Timestamps are the ISO strings the database returns. */
  datatype Post = Post(
    id: string,
    title_en: string, title_ka: string, title_ru: string,
    content_en: string, content_ka: string, content_ru: string,
    image_path: Option<string>,
    published: bool,
    created_at: string,
    updated_at: string,
    published_at: Option<string>)

  /** The editable part of a post, as the post form holds it. */
  datatype PostFormData = PostFormData(
    title_en: string, title_ka: string, title_ru: string,
    content_en: string, content_ka: string, content_ru: string,
    image_path: Option<string>,
    published: bool)

  /** `getTitle`: Georgian for "ka", Russian for "ru", English for every other language code. */
  function LocalizedTitle(post: Post, language: string): (r: string)
    ensures r in {post.title_en, post.title_ka, post.title_ru}
    ensures language == "ka" ==> r == post.title_ka
    ensures language == "ru" ==> r == post.title_ru
    ensures language != "ka" && language != "ru" ==> r == post.title_en
  {
    if language == "ka" then post.title_ka
    else if language == "ru" then post.title_ru
    else post.title_en
  }

  /** `getContent`: the same choice of locale for the body. */
  function LocalizedContent(post: Post, language: string): (r: string)
    ensures r in {post.content_en, post.content_ka, post.content_ru}
    ensures language == "ka" ==> r == post.content_ka
    ensures language == "ru" ==> r == post.content_ru
    ensures language != "ka" && language != "ru" ==> r == post.content_en
  {
    if language == "ka" then post.content_ka
    else if language == "ru" then post.content_ru
    else post.content_en
  }

  /** A post whose three locales agree reads the same in every language. */
  lemma UniformPostReadsAlike(post: Post, language: string)
    requires post.title_en == post.title_ka == post.title_ru
    requires post.content_en == post.content_ka == post.content_ru
    ensures LocalizedTitle(post, language) == post.title_en
    ensures LocalizedContent(post, language) == post.content_en
  {
  }

  /** A post with all six fields filled shows a non-empty title and body in every language. */
  lemma FilledPostReadsFilled(post: Post, language: string)
    requires post.title_en != "" && post.title_ka != "" && post.title_ru != ""
    requires post.content_en != "" && post.content_ka != "" && post.content_ru != ""
    ensures LocalizedTitle(post, language) != ""
    ensures LocalizedContent(post, language) != ""
  {
  }
}
