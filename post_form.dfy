/**
 * The admin post editor (src/components/admin/PostForm.tsx): the form's
 * starting values, validation with locale auto-fill on submit, the image
 * checks and upload, image removal, and the title and content inputs.
 * Storage and database calls are outcomes handed in by the caller; the
 * editor records the requests it makes.
 */
module PostForm {
  import opened Common
  import opened Posts
  import opened Attachments

  // ---------------------------------------------------------------------------
  // Starting values
  // ---------------------------------------------------------------------------

  /** `post?.field || ''`, `post?.image_path || null`, `post?.published || false`. */
  function InitialForm(post: Option<Post>): (r: PostFormData)
    ensures post.None? ==> r == PostFormData("", "", "", "", "", "", None, false)
    ensures post.Some? ==>
              r.title_en == post.value.title_en && r.title_ka == post.value.title_ka &&
              r.title_ru == post.value.title_ru && r.content_en == post.value.content_en &&
              r.content_ka == post.value.content_ka && r.content_ru == post.value.content_ru &&
              r.published == post.value.published
    ensures r.image_path.Some? <==> post.Some? && Present(post.value.image_path)
    ensures r.image_path.Some? ==> r.image_path == post.value.image_path
  {
    match post
    case None => PostFormData("", "", "", "", "", "", None, false)
    case Some(p) =>
      PostFormData(p.title_en, p.title_ka, p.title_ru, p.content_en, p.content_ka, p.content_ru,
                   if Present(p.image_path) then p.image_path else None, p.published)
  }

  // ---------------------------------------------------------------------------
  // Validation and auto-fill in handleSubmit
  // ---------------------------------------------------------------------------

  /** `en || ka || ru`: the first non-empty of the three locales. */
  function FirstNonEmpty(en: string, ka: string, ru: string): (r: string)
    ensures r == "" <==> en == "" && ka == "" && ru == ""
    ensures en != "" ==> r == en
    ensures en == "" && ka != "" ==> r == ka
    ensures en == "" && ka == "" ==> r == ru
  {
    OrElse(en, OrElse(ka, ru))
  }

  function FallbackTitle(f: PostFormData): string
  {
    FirstNonEmpty(f.title_en, f.title_ka, f.title_ru)
  }

  function FallbackContent(f: PostFormData): string
  {
    FirstNonEmpty(f.content_en, f.content_ka, f.content_ru)
  }

  /** `finalData`: every empty locale takes the fallback; image and flag as they were. */
  function AutoFill(f: PostFormData): (r: PostFormData)
    ensures FallbackTitle(f) != "" ==> r.title_en != "" && r.title_ka != "" && r.title_ru != ""
    ensures FallbackContent(f) != "" ==> r.content_en != "" && r.content_ka != "" && r.content_ru != ""
    ensures r.image_path == f.image_path && r.published == f.published
  {
    var title := FallbackTitle(f);
    var content := FallbackContent(f);
    f.(title_en := OrElse(f.title_en, title), title_ka := OrElse(f.title_ka, title),
       title_ru := OrElse(f.title_ru, title), content_en := OrElse(f.content_en, content),
       content_ka := OrElse(f.content_ka, content), content_ru := OrElse(f.content_ru, content))
  }

  const TitleMissing: string := "Please fill in a title"
  const ContentMissing: string := "Please fill in content"

  /** The data to save for a submit with the given `publish`, or the message shown instead. */
  function Validate(f: PostFormData, publish: bool): (r: Result<PostFormData>)
    ensures r.Err? <==> FallbackTitle(f) == "" || FallbackContent(f) == ""
    ensures FallbackTitle(f) == "" ==> r == Err(TitleMissing)
    ensures FallbackTitle(f) != "" && FallbackContent(f) == "" ==> r == Err(ContentMissing)
    ensures r.Ok? ==> r.value == AutoFill(f).(published := publish)
  {
    if FallbackTitle(f) == "" then Err(TitleMissing)
    else if FallbackContent(f) == "" then Err(ContentMissing)
    else Ok(AutoFill(f).(published := publish))
  }

  /** Accepted data has all six locale fields filled. */
  lemma ValidatedIsFilled(f: PostFormData, publish: bool)
    requires Validate(f, publish).Ok?
    ensures var d := Validate(f, publish).value;
            d.title_en != "" && d.title_ka != "" && d.title_ru != "" &&
            d.content_en != "" && d.content_ka != "" && d.content_ru != ""
  {
  }

  /** Auto-fill keeps every filled field, gives every empty one the fallback, and leaves the image alone. */
  lemma AutoFillKeepsFilled(f: PostFormData)
    ensures var d := AutoFill(f);
            (f.title_en != "" ==> d.title_en == f.title_en) && (f.title_en == "" ==> d.title_en == FallbackTitle(f)) &&
            (f.title_ka != "" ==> d.title_ka == f.title_ka) && (f.title_ka == "" ==> d.title_ka == FallbackTitle(f)) &&
            (f.title_ru != "" ==> d.title_ru == f.title_ru) && (f.title_ru == "" ==> d.title_ru == FallbackTitle(f)) &&
            (f.content_en != "" ==> d.content_en == f.content_en) && (f.content_en == "" ==> d.content_en == FallbackContent(f)) &&
            (f.content_ka != "" ==> d.content_ka == f.content_ka) && (f.content_ka == "" ==> d.content_ka == FallbackContent(f)) &&
            (f.content_ru != "" ==> d.content_ru == f.content_ru) && (f.content_ru == "" ==> d.content_ru == FallbackContent(f)) &&
            d.image_path == f.image_path && d.published == f.published
  {
  }

  /** Submitting accepted data again saves the same data: validation is a fixed point on its own output. */
  lemma ValidateIdempotent(f: PostFormData, publish: bool, again: bool)
    requires Validate(f, publish).Ok?
    ensures Validate(Validate(f, publish).value, again) == Ok(Validate(f, publish).value.(published := again))
  {
  }

  /** A submit saves `publish` as the flag, whatever the form's own flag was. */
  lemma SavedFlagIsArgument(f: PostFormData, publish: bool)
    requires Validate(f, publish).Ok?
    ensures Validate(f, publish).value.published == publish
    ensures Validate(f.(published := !f.published), publish) == Validate(f, publish)
  {
  }

  /** The database write: an update of the edited post's row, or an insert. */
  datatype SaveRequest = UpdatePost(id: string, data: PostFormData) | InsertPost(data: PostFormData)

  function SaveRequestFor(post: Option<Post>, data: PostFormData): (r: SaveRequest)
    ensures r.data == data
    ensures r.UpdatePost? <==> post.Some?
    ensures r.UpdatePost? ==> r.id == post.value.id
  {
    match post
    case Some(p) => UpdatePost(p.id, data)
    case None => InsertPost(data)
  }

  // ---------------------------------------------------------------------------
  // Image checks and the storage name in handleImageUpload
  // ---------------------------------------------------------------------------

  const MaxImageBytes: nat := 5 * 1024 * 1024
  const NotAnImage: string := "Please select an image file"
  const ImageTooLarge: string := "Image must be less than 5MB"

  /** The message for a file the editor refuses before any upload, or `None`. */
  function ImageProblem(file: FileInfo): (r: Option<string>)
    ensures r.None? <==> "image/" <= file.mime && file.size <= MaxImageBytes
    ensures !("image/" <= file.mime) ==> r == Some(NotAnImage)
    ensures "image/" <= file.mime && file.size > MaxImageBytes ==> r == Some(ImageTooLarge)
  {
    if !("image/" <= file.mime) then Some(NotAnImage)
    else if file.size > MaxImageBytes then Some(ImageTooLarge)
    else None
  }

  /** The limit is inclusive: an image of exactly 5 MiB passes, one byte more does not. */
  lemma FiveMiBBoundary(name: string, mime: string)
    requires "image/" <= mime
    ensures ImageProblem(FileInfo(name, mime, 5242880)).None?
    ensures ImageProblem(FileInfo(name, mime, 5242881)) == Some(ImageTooLarge)
  {
  }

  /** `${Date.now()}-${random}.${extension}`: the timestamp, "-" and the random part, then "." and the text after the last dot. */
  function StorageName(now: nat, suffix: string, fileName: string): (r: string)
    ensures NatToString(now) <= r
    ensures var n := |NatToString(now)|;
            |r| == n + 1 + |suffix| + 1 + |AfterLast(fileName, '.')| && r[n..n + 1 + |suffix|] == "-" + suffix
    ensures var ext := AfterLast(fileName, '.');
            |r| >= |ext| + 1 && r[|r| - |ext| - 1..] == "." + ext && '.' !in ext
  {
    var ext := AfterLast(fileName, '.');
    var stamp := NatToString(now);
    var r := stamp + "-" + suffix + "." + ext;
    assert r == stamp + ("-" + suffix) + ("." + ext);
    assert r[|stamp|..|stamp| + 1 + |suffix|] == "-" + suffix;
    r
  }

  /** A request sent to the `post-images` bucket. */
  datatype StorageCall = UploadObject(path: string, contentType: string, upsert: bool) | RemoveObject(path: string)

  // ---------------------------------------------------------------------------
  // The editor's state and handlers
  // ---------------------------------------------------------------------------

  class PostEditor {
    /** The post being edited, or `None` when creating one. */
    const post: Option<Post>
    var form: PostFormData
    var imagePreview: Option<string>
    var uploading: bool
    var saving: bool
    var error: Option<string>
    /** Storage requests, in the order they were made. */
    var storage: seq<StorageCall>
    /** Database writes, in the order they were made. */
    var saves: seq<SaveRequest>
    /** How many times the `onSave` callback ran. */
    var savedCount: nat

    /** The preview starts as the public URL of the post's image, when it has one. */
    constructor (post: Option<Post>, publicUrl: string)
      ensures this.post == post && form == InitialForm(post)
      ensures imagePreview == (if post.Some? && Present(post.value.image_path) then Some(publicUrl) else None)
      ensures !uploading && !saving && error == None
      ensures storage == [] && saves == [] && savedCount == 0
    {
      this.post := post;
      form := InitialForm(post);
      imagePreview := if post.Some? && Present(post.value.image_path) then Some(publicUrl) else None;
      uploading, saving, error := false, false, None;
      storage, saves, savedCount := [], [], 0;
    }

    /** The value the title input shows. */
    function ShownTitle(): string
      reads this
    {
      OrElse(form.title_ka, form.title_en)
    }

    /** The title input writes its value to all three locales. */
    method SetTitle(value: string)
      modifies this
      ensures form == old(form).(title_en := value, title_ka := value, title_ru := value)
      ensures ShownTitle() == value
      ensures imagePreview == old(imagePreview) && error == old(error)
      ensures storage == old(storage) && saves == old(saves) && savedCount == old(savedCount)
      ensures uploading == old(uploading) && saving == old(saving)
    {
      form := form.(title_en := value, title_ka := value, title_ru := value);
    }

    /** The content input writes its value to all three locales. */
    method SetContent(value: string)
      modifies this
      ensures form == old(form).(content_en := value, content_ka := value, content_ru := value)
      ensures OrElse(form.content_ka, form.content_en) == value
      ensures imagePreview == old(imagePreview) && error == old(error)
      ensures storage == old(storage) && saves == old(saves) && savedCount == old(savedCount)
      ensures uploading == old(uploading) && saving == old(saving)
    {
      form := form.(content_en := value, content_ka := value, content_ru := value);
    }

    /**
     * handleSubmit: validate; on a refusal only the message changes. Otherwise
     * one write is made and the database's answer decides between `onSave`
     * and an error message. The form itself is never changed.
     */
    method Submit(publish: bool, db: Outcome)
      modifies this
      ensures form == old(form) && storage == old(storage) && imagePreview == old(imagePreview)
      ensures uploading == old(uploading)
      ensures Validate(old(form), publish).Err? ==>
                error == Some(Validate(old(form), publish).error) &&
                saves == old(saves) && savedCount == old(savedCount) && saving == old(saving)
      ensures Validate(old(form), publish).Ok? ==>
                saves == old(saves) + [SaveRequestFor(post, Validate(old(form), publish).value)] &&
                !saving &&
                (db.Done? ==> error == None && savedCount == old(savedCount) + 1) &&
                (db.Failed? ==> error == Some(ErrorText(db, "Failed to save post")) && savedCount == old(savedCount))
    {
      var verdict := Validate(form, publish);
      if verdict.Err? {
        error := Some(verdict.error);
        return;
      }
      saving := true;
      error := None;
      saves := saves + [SaveRequestFor(post, verdict.value)];
      if db.Failed? {
        error := Some(ErrorText(db, "Failed to save post"));
      } else {
        savedCount := savedCount + 1;
      }
      saving := false;
    }

    /**
     * handleImageUpload: refuse a non-image or an oversized file; otherwise
     * upload under a fresh name, then remove the previous image, then point
     * the form at the new one. `removal` is how the removal request ended: an
     * error it reports is ignored, only a throw (`Failed`) aborts the update.
     */
    method UploadImage(file: Option<FileInfo>, now: nat, suffix: string, upload: Outcome, removal: Outcome, dataUrl: string)
      modifies this
      ensures saves == old(saves) && savedCount == old(savedCount) && saving == old(saving)
      ensures file.None? ==> form == old(form) && storage == old(storage) && error == old(error) &&
                             imagePreview == old(imagePreview) && uploading == old(uploading)
      ensures file.Some? && ImageProblem(file.value).Some? ==>
                error == ImageProblem(file.value) && form == old(form) && storage == old(storage) &&
                imagePreview == old(imagePreview) && uploading == old(uploading)
      ensures file.Some? && ImageProblem(file.value).None? ==>
                var path := StorageName(now, suffix, file.value.name);
                var put := UploadObject(path, file.value.mime, true);
                var previous := old(form).image_path;
                !uploading &&
                (upload.Failed? ==>
                   storage == old(storage) + [put] && form == old(form) && imagePreview == old(imagePreview) &&
                   error == Some(ErrorText(upload, "Failed to upload image"))) &&
                (upload.Done? && !Present(previous) ==>
                   storage == old(storage) + [put] && form == old(form).(image_path := Some(path)) &&
                   imagePreview == Some(dataUrl) && error == None) &&
                (upload.Done? && Present(previous) ==>
                   storage == old(storage) + [put, RemoveObject(previous.value)] &&
                   (removal.Done? ==> form == old(form).(image_path := Some(path)) &&
                                      imagePreview == Some(dataUrl) && error == None) &&
                   (removal.Failed? ==> form == old(form) && imagePreview == old(imagePreview) &&
                                        error == Some(ErrorText(removal, "Failed to upload image"))))
    {
      if file.None? {
        return;
      }
      var f := file.value;
      var problem := ImageProblem(f);
      if problem.Some? {
        error := problem;
        return;
      }
      uploading := true;
      error := None;
      var path := StorageName(now, suffix, f.name);
      // The MIME type passed the check above, so the 'image/jpeg' fallback never applies.
      var contentType := OrElse(f.mime, "image/jpeg");
      assert contentType == f.mime;
      storage := storage + [UploadObject(path, contentType, true)];
      if upload.Failed? {
        error := Some(ErrorText(upload, "Failed to upload image"));
      } else {
        var failed := false;
        if Present(form.image_path) {
          storage := storage + [RemoveObject(form.image_path.value)];
          if removal.Failed? {
            error := Some(ErrorText(removal, "Failed to upload image"));
            failed := true;
          }
        }
        if !failed {
          form := form.(image_path := Some(path));
          imagePreview := Some(dataUrl);
        }
      }
      uploading := false;
    }

    /** handleRemoveImage: ask storage to remove the image if there is one, ignore how that ends, clear the field. */
    method RemoveImage()
      modifies this
      ensures form == old(form).(image_path := None) && imagePreview == None
      ensures storage == old(storage) + (if Present(old(form).image_path) then [RemoveObject(old(form).image_path.value)] else [])
      ensures error == old(error) && saves == old(saves) && savedCount == old(savedCount)
      ensures uploading == old(uploading) && saving == old(saving)
    {
      if Present(form.image_path) {
        storage := storage + [RemoveObject(form.image_path.value)];
      }
      form := form.(image_path := None);
      imagePreview := None;
    }
  }
}
