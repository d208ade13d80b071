/**
 * Image uploads: the checks every uploaded image passes (size, extension, sniffed
 * content type), the avatar file name and URL, and the gallery upload with its
 * title check, comma-separated tags trimmed in place and optional event link.
 * The file system is the set of paths saved under `./public`; the uploaded file
 * arrives as a `FileHeader` whose sniffed content type (Go's
 * `http.DetectContentType` over the first 512 bytes) is given, not computed.
 */
module Uploads {

  import opened Wrappers
  import opened Text
  import opened ObjectIds
  import Decimal
  import Validator

  /** The largest accepted upload: 5 MiB. */
  const MaxImageSize := 5 * 1024 * 1024

  const AllowedExtensions: seq<string> := [".jpg", ".jpeg", ".png", ".gif"]
  const AllowedTypes: seq<string> := ["image/jpeg", "image/png", "image/gif"]

  const SizeError := "file size too large (max 5MB)"
  const ExtensionError := "invalid file type (allowed: jpg, jpeg, png, gif)"
  const OpenError := "failed to open file"
  const ReadError := "failed to read file"
  const ContentError := "invalid file type detected"

  /** What opening and reading the upload gave: a failure, or the sniffed content type. */
  datatype ImageContent = OpenFailed | ReadFailed | Sniffed(contentType: string)

  /** A multipart file: its client-side name, its size in bytes and its content. */
  datatype FileHeader = FileHeader(filename: string, size: int, content: ImageContent)

  // ---------------------------------------------------------------------------
  // Extensions

  /**
   * `filepath.Ext` with '/' as separator: the suffix from the last '.' of the
   * final path element, or "" when that element has no '.'.
   */
  function Ext(path: string): (ext: string)
    ensures |ext| <= |path| && ext == path[|path| - |ext|..]
    ensures ext == [] || ext[0] == '.'
    ensures forall i :: 1 <= i < |ext| ==> ext[i] != '.' && ext[i] != '/'
  {
    if path == [] then []
    else
      var c := path[|path| - 1];
      if c == '/' then []
      else if c == '.' then "."
      else
        var e := Ext(path[..|path| - 1]);
        if e == [] then [] else e + [c]
  }

  /** The shape of an extension: a '.' followed by no further '.' or separator. */
  predicate IsExtension(e: string)
  {
    e != [] && e[0] == '.' && forall i :: 1 <= i < |e| ==> e[i] != '.' && e[i] != '/'
  }

  /** Appending an extension to any name makes it the name's extension. */
  lemma {:induction false} ExtOfAppended(base: string, e: string)
    requires IsExtension(e)
    ensures Ext(base + e) == e
    decreases |e|
  {
    var path := base + e;
    if |e| == 1 {
      assert path[|path| - 1] == '.';
    } else {
      var init := e[..|e| - 1];
      assert path[..|path| - 1] == base + init;
      ExtOfAppended(base, init);
      assert init + [e[|e| - 1]] == e;
    }
  }

  /** U+0130, LATIN CAPITAL LETTER I WITH DOT ABOVE, whose lower case in Go is 'i'. */
  const DottedCapitalI: char := '\U{0130}'

  /** U+212A, KELVIN SIGN, whose lower case in Go is 'k'. */
  const KelvinSign: char := '\U{212A}'

  /**
   * `strings.ToLower` as far as the extension check can tell: 'A'..'Z' become
   * 'a'..'z', the only two non-ASCII letters whose lower case is ASCII become it,
   * and every other character stays.
   */
  function ToLower(s: string): (r: string)
    ensures |r| == |s|
    ensures forall i :: 0 <= i < |s| ==> !IsAsciiUpper(r[i]) && r[i] != DottedCapitalI && r[i] != KelvinSign
    ensures forall i :: 0 <= i < |s| && IsAsciiUpper(s[i]) ==> r[i] as int == s[i] as int + 32
    ensures forall i :: 0 <= i < |s| && s[i] == DottedCapitalI ==> r[i] == 'i'
    ensures forall i :: 0 <= i < |s| && s[i] == KelvinSign ==> r[i] == 'k'
    ensures forall i :: 0 <= i < |s| && !IsAsciiUpper(s[i]) && s[i] != DottedCapitalI && s[i] != KelvinSign ==>
              r[i] == s[i]
  {
    seq(|s|, i requires 0 <= i < |s| =>
      if IsAsciiUpper(s[i]) then (s[i] as int + 32) as char
      else if s[i] == DottedCapitalI then 'i'
      else if s[i] == KelvinSign then 'k'
      else s[i])
  }

  /** Lower-casing twice is lower-casing once. */
  lemma {:induction false} ToLowerIdempotent(s: string)
    ensures ToLower(ToLower(s)) == ToLower(s)
  {
  }

  // ---------------------------------------------------------------------------
  // Validation

  /**
   * `validateImageFile`: `None` when the file is accepted, otherwise the message of
   * the first check that fails, in the order size, extension, open, read, content.
   */
  function ValidateImageFile(f: FileHeader): (err: Option<string>)
    ensures err.None? <==>
              f.size <= MaxImageSize && ToLower(Ext(f.filename)) in AllowedExtensions &&
              f.content.Sniffed? && f.content.contentType in AllowedTypes
    ensures f.size > MaxImageSize ==> err == Some(SizeError)
    ensures f.size <= MaxImageSize && ToLower(Ext(f.filename)) !in AllowedExtensions ==> err == Some(ExtensionError)
  {
    if f.size > MaxImageSize then Some(SizeError)
    else if ToLower(Ext(f.filename)) !in AllowedExtensions then Some(ExtensionError)
    else match f.content
      case OpenFailed => Some(OpenError)
      case ReadFailed => Some(ReadError)
      case Sniffed(t) => if t in AllowedTypes then None else Some(ContentError)
  }

  /** An accepted file has a non-empty extension, so it names an image format. */
  lemma {:induction false} AcceptedHasExtension(f: FileHeader)
    requires ValidateImageFile(f).None?
    ensures IsExtension(Ext(f.filename))
  {
    assert |ToLower(Ext(f.filename))| >= 4;
  }

  /** The extension check ignores case: "photo.JPG" and "photo.jpg" are judged alike. */
  lemma {:induction false} ExtensionCaseIgnored(base: string, e: string, size: int, content: ImageContent)
    requires IsExtension(e)
    ensures IsExtension(ToLower(e))
    ensures ValidateImageFile(FileHeader(base + e, size, content)) ==
            ValidateImageFile(FileHeader(base + ToLower(e), size, content))
  {
    var lower := ToLower(e);
    assert IsExtension(lower);
    ExtOfAppended(base, e);
    ExtOfAppended(base, lower);
    ToLowerIdempotent(e);
  }

  /** A GIF named "a.G\u0130F" passes, since the dotted capital I lower-cases to 'i'. */
  lemma {:induction false} DottedCapitalIExtension()
    ensures ValidateImageFile(FileHeader("a.G\U{0130}F", 1024, Sniffed("image/gif"))).None?
  {
    var e := ".G\U{0130}F";
    ExtOfAppended("a", e);
    assert "a" + e == "a.G\U{0130}F";
    assert ToLower(e) == ".gif";
  }

  // ---------------------------------------------------------------------------
  // Tags

  /** `strings.Split` on a single-character separator. */
  function Split(s: string, sep: char): (pieces: seq<string>)
    ensures pieces != []
  {
    if s == [] then [[]]
    else
      var rest := Split(s[1..], sep);
      if s[0] == sep then [[]] + rest else [[s[0]] + rest[0]] + rest[1..]
  }

  /** There is one piece more than there are separators, and no piece holds a separator. */
  lemma {:induction false} SplitPieces(s: string, sep: char)
    ensures |Split(s, sep)| == multiset(s)[sep] + 1
    ensures forall i :: 0 <= i < |Split(s, sep)| ==> sep !in Split(s, sep)[i]
  {
    if s != [] {
      SplitPieces(s[1..], sep);
      assert s == [s[0]] + s[1..];
      var rest := Split(s[1..], sep);
      var pieces := Split(s, sep);
      if s[0] != sep {
        assert pieces == [[s[0]] + rest[0]] + rest[1..];
        forall i | 0 <= i < |pieces| ensures sep !in pieces[i] {
          if i > 0 {
            assert pieces[i] == rest[i];
          } else {
            assert sep !in rest[0];
          }
        }
      } else {
        assert pieces == [[]] + rest;
        forall i | 0 <= i < |pieces| ensures sep !in pieces[i] {
          if i > 0 {
            assert pieces[i] == rest[i - 1];
          }
        }
      }
    }
  }

  /** `strings.Join` with a single-character separator. */
  function Join(pieces: seq<string>, sep: char): string
    requires |pieces| >= 1
  {
    if |pieces| == 1 then pieces[0] else pieces[0] + [sep] + Join(pieces[1..], sep)
  }

  /** A separator-free prefix joins the first piece of what follows it. */
  lemma {:induction false} SplitPrefix(p: string, s: string, sep: char)
    requires sep !in p
    ensures Split(p + s, sep) == [p + Split(s, sep)[0]] + Split(s, sep)[1..]
  {
    if p == [] {
      var t := Split(s, sep);
      assert p + s == s;
      assert p + t[0] == t[0];
      assert [t[0]] + t[1..] == t;
    } else {
      assert p[0] in p;
      assert forall c :: c in p[1..] ==> c in p;
      SplitPrefix(p[1..], s, sep);
      var t := Split(s, sep);
      var rest := Split((p + s)[1..], sep);
      assert (p + s)[1..] == p[1..] + s;
      assert rest == [p[1..] + t[0]] + t[1..];
      assert rest[0] == p[1..] + t[0] && rest[1..] == t[1..];
      assert Split(p + s, sep) == [[p[0]] + rest[0]] + rest[1..];
      assert [p[0]] + (p[1..] + t[0]) == p + t[0];
    }
  }

  /** Joining the pieces gives back the split string. */
  lemma {:induction false} JoinSplit(s: string, sep: char)
    ensures Join(Split(s, sep), sep) == s
  {
    if s != [] {
      var rest := Split(s[1..], sep);
      JoinSplit(s[1..], sep);
      assert s == [s[0]] + s[1..];
      if s[0] == sep {
        assert Split(s, sep) == [[]] + rest;
        assert ([[]] + rest)[1..] == rest;
      } else {
        var pieces := [[s[0]] + rest[0]] + rest[1..];
        assert Split(s, sep) == pieces;
        if |rest| > 1 {
          assert pieces[1..] == rest[1..];
        }
      }
    }
  }

  /** Splitting a join of separator-free pieces gives back the pieces. */
  lemma {:induction false} SplitJoin(pieces: seq<string>, sep: char)
    requires |pieces| >= 1
    requires forall i :: 0 <= i < |pieces| ==> sep !in pieces[i]
    ensures Split(Join(pieces, sep), sep) == pieces
  {
    var p := pieces[0];
    if |pieces| == 1 {
      SplitPrefix(p, [], sep);
      assert p + [] == p;
    } else {
      var tail := pieces[1..];
      assert forall i :: 0 <= i < |tail| ==> sep !in tail[i] by {
        forall i | 0 <= i < |tail| ensures sep !in tail[i] {
          assert tail[i] == pieces[i + 1];
        }
      }
      SplitJoin(tail, sep);
      var rest := [sep] + Join(tail, sep);
      assert Join(pieces, sep) == p + rest;
      SplitPrefix(p, rest, sep);
      assert rest[1..] == Join(tail, sep);
      assert Split(rest, sep) == [[]] + tail;
      assert p + [] == p;
      assert pieces == [p] + tail;
    }
  }

  /**
   * The tags of a gallery upload: the comma-separated pieces of the field, each
   * trimmed of surrounding space; an empty field gives no tags.
   */
  function Tags(field: string): (tags: seq<string>)
    ensures field == "" ==> tags == []
    ensures field != "" ==> |tags| == multiset(field)[','] + 1
    ensures forall i :: 0 <= i < |tags| ==> Trimmed(tags[i]) && ',' !in tags[i]
    ensures field != "" ==> |tags| == |Split(field, ',')| &&
                            forall i :: 0 <= i < |tags| ==> tags[i] == TrimSpace(Split(field, ',')[i])
  {
    if field == "" then []
    else
      var pieces := Split(field, ',');
      SplitPieces(field, ',');
      seq(|pieces|, i requires 0 <= i < |pieces| => TrimSpace(pieces[i]))
  }

  /** Trimmed, comma-free tags joined by commas come back unchanged. */
  lemma {:induction false} TagsRoundTrip(tags: seq<string>)
    requires |tags| >= 1 && Join(tags, ',') != ""
    requires forall i :: 0 <= i < |tags| ==> Trimmed(tags[i]) && ',' !in tags[i]
    ensures Tags(Join(tags, ',')) == tags
  {
    SplitJoin(tags, ',');
  }

  /** The loop of `UploadGalleryImage` that trims every tag in place. */
  method TrimTags(tags: array<string>)
    modifies tags
    ensures forall i :: 0 <= i < tags.Length ==> tags[i] == TrimSpace(old(tags[i]))
  {
    var i := 0;
    while i < tags.Length
      invariant 0 <= i <= tags.Length
      invariant forall k :: 0 <= k < i ==> tags[k] == TrimSpace(old(tags[k]))
      invariant forall k :: i <= k < tags.Length ==> tags[k] == old(tags[k])
    {
      var trimmed := TrimSpace(tags[i]);
      tags[i] := trimmed;
      i := i + 1;
    }
  }

  // ---------------------------------------------------------------------------
  // File names

  /** The stored avatar name: the user's hex ID, '_', the upload time in Unix seconds, the extension. */
  function AvatarFileName(user: ObjectId, now: int, ext: string): string
  {
    Hex(user) + "_" + Decimal.FormatInt(now) + ext
  }

  function AvatarUrl(name: string): string
  {
    "/avatars/" + name
  }

  /**
   * An avatar name identifies its owner and keeps the upload's extension: its first
   * 24 characters parse back to the user, so different users never share a name.
   */
  lemma {:induction false} AvatarNameIdentifiesUser(user: ObjectId, now: int, ext: string)
    requires IsExtension(ext)
    ensures var name := AvatarFileName(user, now, ext);
            |name| > 24 && FromHex(name[..24]) == Some(user) && name[24] == '_' && Ext(name) == ext
  {
    var name := AvatarFileName(user, now, ext);
    assert name[..24] == Hex(user);
    HexRoundTrip(user);
    ExtOfAppended(Hex(user) + "_" + Decimal.FormatInt(now), ext);
  }

  /** Two avatar uploads get the same name only if they are by the same user. */
  lemma {:induction false} AvatarNamesDistinct(u1: ObjectId, t1: int, e1: string, u2: ObjectId, t2: int, e2: string)
    requires IsExtension(e1) && IsExtension(e2)
    requires AvatarFileName(u1, t1, e1) == AvatarFileName(u2, t2, e2)
    ensures u1 == u2
  {
    AvatarNameIdentifiesUser(u1, t1, e1);
    AvatarNameIdentifiesUser(u2, t2, e2);
  }

  /** The stored gallery name: "gallery_", the upload time in Unix seconds, the extension. */
  function GalleryFileName(now: int, ext: string): string
  {
    "gallery_" + Decimal.FormatInt(now) + ext
  }

  // ---------------------------------------------------------------------------
  // Gallery items

  datatype GalleryItem = GalleryItem(
    id: ObjectId,
    title: string,
    description: string,
    imageUrl: string,
    uploadedBy: ObjectId,
    tags: seq<string>,
    eventId: Option<ObjectId>,
    isActive: bool,
    createdAt: int)

  /** The form fields of a gallery upload. */
  datatype GalleryForm = GalleryForm(title: string, description: string, tags: string, eventId: string)

  /**
   * The stored item: sanitised title and description, the URL of the file saved at
   * `nameTime`, the trimmed tags, and the event only when `event_id` parses; an
   * unparsable one is dropped.  It is created at `now`, read from the clock later.
   */
  function NewGalleryItem(form: GalleryForm, tags: seq<string>, ext: string, uploader: ObjectId, id: ObjectId,
                          nameTime: int, now: int)
    : (g: GalleryItem)
    ensures g.id == id && g.uploadedBy == uploader && g.isActive && g.createdAt == now && g.tags == tags
    ensures g.title == Validator.SanitizeString(form.title) && g.description == Validator.SanitizeString(form.description)
    ensures Validator.NoMarkup(g.title) && Validator.NoMarkup(g.description)
    ensures Trimmed(g.title) && Trimmed(g.description)
    ensures g.imageUrl == "/gallery/" + GalleryFileName(nameTime, ext)
    ensures g.eventId.Some? <==> FromHex(form.eventId).Some?
    ensures g.eventId.Some? ==> Hex(g.eventId.value) == LowerHex(form.eventId)
  {
    assert FromHex(form.eventId).Some? ==> Hex(FromHex(form.eventId).value) == LowerHex(form.eventId) by {
      if FromHex(form.eventId).Some? {
        FromHexCanonical(form.eventId);
      }
    }
    GalleryItem(id, Validator.SanitizeString(form.title), Validator.SanitizeString(form.description),
                "/gallery/" + GalleryFileName(nameTime, ext), uploader, tags, FromHex(form.eventId), true, now)
  }

  /** A gallery URL ends in the extension it was named with. */
  lemma {:induction false} GalleryUrlExt(now: int, ext: string)
    requires IsExtension(ext)
    ensures Ext("/gallery/" + GalleryFileName(now, ext)) == ext
  {
    var base := "/gallery/" + ("gallery_" + Decimal.FormatInt(now));
    ConcatAssoc("/gallery/", "gallery_" + Decimal.FormatInt(now), ext);
    ExtOfAppended(base, ext);
  }

  /** A gallery image's URL ends in the uploaded file's extension. */
  lemma {:induction false} GalleryUrlKeepsExtension(form: GalleryForm, tags: seq<string>, file: FileHeader, uploader: ObjectId,
                                                    id: ObjectId, nameTime: int, now: int)
    requires ValidateImageFile(file).None?
    ensures Ext(NewGalleryItem(form, tags, Ext(file.filename), uploader, id, nameTime, now).imageUrl) == Ext(file.filename)
  {
    AcceptedHasExtension(file);
    GalleryUrlExt(nameTime, Ext(file.filename));
  }

  /** Store operations whose failure changes what a handler does. */
  datatype Step = SaveFile | UpdateAvatar | InsertItem

  class Media {
    /** The paths saved under `./public`. */
    var files: set<string>
    /** The `avatar_url` of every user document, by user ID. */
    var avatars: map<ObjectId, string>
    var gallery: seq<GalleryItem>

    constructor (users: set<ObjectId>)
      ensures files == {} && gallery == []
      ensures avatars == map u | u in users :: ""
    {
      files := {};
      avatars := map u | u in users :: "";
      gallery := [];
    }

    /**
     * `UploadAvatar`: save the file under its avatar name and point the user's
     * `avatar_url` at it.  A user with no document is not an error, and a failed
     * update leaves the saved file in place.
     */
    method UploadAvatar(file: Option<FileHeader>, user: ObjectId, now: int, fails: set<Step>)
      returns (reply: Reply, url: Option<string>)
      modifies this`files, this`avatars
      ensures file.None? ==>
                reply == Reply(400, "No file uploaded") && url.None? && files == old(files) && avatars == old(avatars)
      ensures file.Some? && ValidateImageFile(file.value).Some? ==>
                reply == Reply(400, ValidateImageFile(file.value).value) && url.None? &&
                files == old(files) && avatars == old(avatars)
      ensures file.Some? && ValidateImageFile(file.value).None? ==>
                var name := AvatarFileName(user, now, Ext(file.value.filename));
                if SaveFile in fails then
                  reply == Reply(500, "Failed to save file") && url.None? && files == old(files) && avatars == old(avatars)
                else
                  files == old(files) + {"./public/avatars/" + name} &&
                  if UpdateAvatar in fails then
                    reply == Reply(500, "Failed to update user avatar") && url.None? && avatars == old(avatars)
                  else
                    reply == Reply(200, "Avatar uploaded successfully") && url == Some(AvatarUrl(name)) &&
                    avatars == if user in old(avatars) then old(avatars)[user := AvatarUrl(name)] else old(avatars)
    {
      if file.None? {
        return Reply(400, "No file uploaded"), None;
      }
      var err := ValidateImageFile(file.value);
      if err.Some? {
        return Reply(400, err.value), None;
      }
      reply, url := StoreAvatar(AvatarFileName(user, now, Ext(file.value.filename)), user, fails);
    }

    /** The second half of `UploadAvatar`: save the file under `name`, then set the user's `avatar_url`. */
    method StoreAvatar(name: string, user: ObjectId, fails: set<Step>) returns (reply: Reply, url: Option<string>)
      modifies this`files, this`avatars
      ensures SaveFile in fails ==>
                reply == Reply(500, "Failed to save file") && url.None? && files == old(files) && avatars == old(avatars)
      ensures SaveFile !in fails ==> files == old(files) + {"./public/avatars/" + name}
      ensures SaveFile !in fails && UpdateAvatar in fails ==>
                reply == Reply(500, "Failed to update user avatar") && url.None? && avatars == old(avatars)
      ensures SaveFile !in fails && UpdateAvatar !in fails ==>
                reply == Reply(200, "Avatar uploaded successfully") && url == Some(AvatarUrl(name)) &&
                avatars == if user in old(avatars) then old(avatars)[user := AvatarUrl(name)] else old(avatars)
    {
      if SaveFile in fails {
        return Reply(500, "Failed to save file"), None;
      }
      files := files + {"./public/avatars/" + name};
      if UpdateAvatar in fails {
        return Reply(500, "Failed to update user avatar"), None;
      }
      if user in avatars {
        avatars := avatars[user := AvatarUrl(name)];
      }
      reply, url := Reply(200, "Avatar uploaded successfully"), Some(AvatarUrl(name));
    }

    /**
     * `UploadGalleryImage`: the file checks, then the title check, then the file is
     * saved and the item inserted.  A failed insert leaves the saved file in place.
     * The file is named at clock reading `nameTime` and the item created at `now`.
     */
    method UploadGalleryImage(file: Option<FileHeader>, form: GalleryForm, uploader: ObjectId, id: ObjectId,
                              nameTime: int, now: int, fails: set<Step>)
      returns (reply: Reply, item: Option<GalleryItem>)
      modifies this`files, this`gallery
      ensures file.None? ==>
                reply == Reply(400, "No file uploaded") && item.None? && files == old(files) && gallery == old(gallery)
      ensures file.Some? && ValidateImageFile(file.value).Some? ==>
                reply == Reply(400, ValidateImageFile(file.value).value) && item.None? &&
                files == old(files) && gallery == old(gallery)
      ensures file.Some? && ValidateImageFile(file.value).None? && form.title == "" ==>
                reply == Reply(400, "Title is required") && item.None? && files == old(files) && gallery == old(gallery)
      ensures file.Some? && ValidateImageFile(file.value).None? && form.title != "" ==>
                var ext := Ext(file.value.filename);
                if SaveFile in fails then
                  reply == Reply(500, "Failed to save file") && item.None? && files == old(files) && gallery == old(gallery)
                else
                  files == old(files) + {"./public/gallery/" + GalleryFileName(nameTime, ext)} &&
                  if InsertItem in fails then
                    reply == Reply(500, "Failed to save gallery item") && item.None? && gallery == old(gallery)
                  else
                    reply == Reply(201, "Gallery image uploaded successfully") &&
                    item == Some(NewGalleryItem(form, Tags(form.tags), ext, uploader, id, nameTime, now)) &&
                    gallery == old(gallery) + [item.value]
    {
      if file.None? {
        return Reply(400, "No file uploaded"), None;
      }
      var err := ValidateImageFile(file.value);
      if err.Some? {
        return Reply(400, err.value), None;
      }
      if form.title == "" {
        return Reply(400, "Title is required"), None;
      }
      reply, item := StoreGalleryItem(form, Ext(file.value.filename), uploader, id, nameTime, now, fails);
    }

    /** The second half of `UploadGalleryImage`: save the file, then insert the item. */
    method StoreGalleryItem(form: GalleryForm, ext: string, uploader: ObjectId, id: ObjectId, nameTime: int,
                            now: int, fails: set<Step>)
      returns (reply: Reply, item: Option<GalleryItem>)
      modifies this`files, this`gallery
      ensures SaveFile in fails ==>
                reply == Reply(500, "Failed to save file") && item.None? && files == old(files) && gallery == old(gallery)
      ensures SaveFile !in fails ==> files == old(files) + {"./public/gallery/" + GalleryFileName(nameTime, ext)}
      ensures SaveFile !in fails && InsertItem in fails ==>
                reply == Reply(500, "Failed to save gallery item") && item.None? && gallery == old(gallery)
      ensures SaveFile !in fails && InsertItem !in fails ==>
                reply == Reply(201, "Gallery image uploaded successfully") &&
                item == Some(NewGalleryItem(form, Tags(form.tags), ext, uploader, id, nameTime, now)) &&
                gallery == old(gallery) + [item.value]
    {
      if SaveFile in fails {
        return Reply(500, "Failed to save file"), None;
      }
      files := files + {"./public/gallery/" + GalleryFileName(nameTime, ext)};
      var tags := BuildTags(form.tags);
      if InsertItem in fails {
        return Reply(500, "Failed to save gallery item"), None;
      }
      var entry := NewGalleryItem(form, tags, ext, uploader, id, nameTime, now);
      gallery := gallery + [entry];
      reply, item := Reply(201, "Gallery image uploaded successfully"), Some(entry);
    }
  }

  /** The tags of `UploadGalleryImage`: split the field on commas, then trim every piece in place. */
  method BuildTags(field: string) returns (tags: seq<string>)
    ensures tags == Tags(field)
  {
    tags := [];
    if field != "" {
      var pieces := Split(field, ',');
      var buffer := new string[|pieces|](i requires 0 <= i < |pieces| => pieces[i]);
      TrimTags(buffer);
      tags := buffer[..];
    }
  }
}
