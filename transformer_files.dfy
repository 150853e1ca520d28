/** The file-listing endpoints: which directory a listing reads, how the
    listing is cut to a limit, the public URL of a stored file and the
    content type guessed from a file name. The directory listing itself
    (already ordered newest first) is a parameter. */
module TransformerFiles {
  import opened Common
  import Text

  // ---------------------------------------------------------------------
  // Directories

  /** The directory of one image kind of one transformer, relative to the
      storage root. */
  datatype Dir = Dir(transformerId: int, kind: string)

  function RelativeDir(d: Dir): string
  {
    "transformers/" + Text.IntText(d.transformerId) + "/" + d.kind
  }

  /** `validateTypeAndResolveDir`: the type, lower-cased (null read as ""),
      must be "baseline" or "maintenance". */
  function ResolveDir(id: int, kind: Option<string>): (r: Result<Dir>)
    ensures r.Ok? <==> Text.Lower(kind.GetOr("")) in {"baseline", "maintenance"}
    ensures r.Err? ==> r.error == IllegalArgument
    ensures r.Ok? ==> r.value.transformerId == id && r.value.kind == Text.Lower(kind.GetOr(""))
  {
    var normalized := Text.Lower(kind.GetOr(""));
    if normalized != "baseline" && normalized != "maintenance" then Err(IllegalArgument)
    else Ok(Dir(id, normalized))
  }

  /** `subList(0, limit)` when `0 < limit < size`, else the whole list. */
  function Truncate<T>(files: seq<T>, limit: Option<int>): (r: seq<T>)
    ensures r <= files
    ensures |r| == (if limit.Some? && 0 < limit.value < |files| then limit.value else |files|)
  {
    if limit.Some? && 0 < limit.value < |files| then files[..limit.value] else files
  }

  // ---------------------------------------------------------------------
  // URL encoding of one path segment (application/x-www-form-urlencoded, UTF-8)

  /** The characters `URLEncoder` leaves as they are. */
  predicate Unreserved(c: char)
  {
    ('a' <= c <= 'z') || ('A' <= c <= 'Z') || ('0' <= c <= '9') || c == '.' || c == '-' || c == '*' || c == '_'
  }

  /** The UTF-8 bytes of a character. */
  function Utf8(c: char): (bs: seq<int>)
    ensures 1 <= |bs| <= 4
    ensures forall i :: 0 <= i < |bs| ==> 0 <= bs[i] < 256
  {
    var cp := c as int;
    if cp < 0x80 then [cp]
    else if cp < 0x800 then [0xC0 + cp / 64, 0x80 + cp % 64]
    else if cp < 0x10000 then [0xE0 + cp / 4096, 0x80 + (cp / 64) % 64, 0x80 + cp % 64]
    else [0xF0 + cp / 262144, 0x80 + (cp / 4096) % 64, 0x80 + (cp / 64) % 64, 0x80 + cp % 64]
  }

  function HexDigit(n: int): (c: char)
    requires 0 <= n < 16
    ensures Unreserved(c)
  {
    "0123456789ABCDEF"[n]
  }

  /** `%XX` per byte, upper-case hexadecimal. */
  function Percent(bs: seq<int>): (s: string)
    requires forall i :: 0 <= i < |bs| ==> 0 <= bs[i] < 256
    ensures |s| == 3 * |bs|
    ensures forall i :: 0 <= i < |s| ==> s[i] == '%' || Unreserved(s[i])
  {
    if bs == [] then ""
    else ['%', HexDigit(bs[0] / 16), HexDigit(bs[0] % 16)] + Percent(bs[1..])
  }

  /** One character as `URLEncoder.encode` writes it: unreserved characters
      as they are, a space as '+', anything else as its escaped UTF-8 bytes. */
  function EncodeChar(c: char): (s: string)
    ensures 1 <= |s|
    ensures forall i :: 0 <= i < |s| ==> UrlChar(s[i])
    ensures Unreserved(c) <==> s == [c]
  {
    if Unreserved(c) then [c]
    else if c == ' ' then "+"
    else Percent(Utf8(c))
  }

  /** The characters an encoded segment is made of; never '/'. */
  predicate UrlChar(c: char)
  {
    Unreserved(c) || c == '+' || c == '%'
  }

  /** `URLEncoder.encode(seg, UTF_8)`. */
  function EncodeSegment(seg: string): (s: string)
    ensures |s| >= |seg|
    ensures forall i :: 0 <= i < |s| ==> UrlChar(s[i])
  {
    if seg == [] then "" else EncodeChar(seg[0]) + EncodeSegment(seg[1..])
  }

  // ---------------------------------------------------------------------
  // Public URLs

  /** The encoded non-empty segments, in order. */
  function Encoded(segs: seq<string>): (es: seq<string>)
    ensures |es| <= |segs|
    ensures forall i :: 0 <= i < |es| ==> es[i] != "" && '/' !in es[i]
  {
    if segs == [] then []
    else
      var last := segs[|segs| - 1];
      Encoded(segs[..|segs| - 1]) + (if last == "" then [] else [EncodeSegment(last)])
  }

  /** The segments of a relative path: split on '/' after turning every
      backslash into one. */
  function Segments(relative: string): seq<string>
  {
    Text.Split(Text.ReplaceChar(relative, '\\', '/'), '/')
  }

  const FilesPrefix := "/files"

  /** The public URL of a stored file: "/files/" followed by its encoded
      non-empty segments joined by '/'; just "/files" when there are none. */
  function PublicUrl(relative: string): (url: string)
  {
    var es := Encoded(Segments(relative));
    if es == [] then FilesPrefix else FilesPrefix + "/" + Text.Join(es, '/')
  }

  /** Each part followed by a '/'. */
  function Terminated(parts: seq<string>): string
  {
    if parts == [] then "" else Terminated(parts[..|parts| - 1]) + parts[|parts| - 1] + "/"
  }

  lemma {:induction false} JoinSnoc(parts: seq<string>, p: string, sep: char)
    requires parts != []
    ensures Text.Join(parts + [p], sep) == Text.Join(parts, sep) + [sep] + p
    decreases |parts|
  {
    if |parts| == 1 {
      assert parts + [p] == [parts[0], p];
      assert Text.Join([parts[0], p], sep) == parts[0] + [sep] + Text.Join([p], sep);
    } else {
      assert (parts + [p])[1..] == parts[1..] + [p];
      JoinSnoc(parts[1..], p, sep);
    }
  }

  /** Terminating every part is joining them and adding one final '/'. */
  lemma {:induction false} TerminatedJoin(parts: seq<string>)
    requires parts != []
    ensures Terminated(parts) == Text.Join(parts, '/') + "/"
    decreases |parts|
  {
    var init := parts[..|parts| - 1];
    var last := parts[|parts| - 1];
    if init == [] {
      assert parts == [last];
    } else {
      TerminatedJoin(init);
      assert init + [last] == parts;
      JoinSnoc(init, last, '/');
    }
  }

  /** One more segment: the encoded list grows by its encoding when it is
      not empty. */
  lemma EncodedStep(segs: seq<string>, i: nat)
    requires i < |segs|
    ensures Encoded(segs[..i + 1])
         == Encoded(segs[..i]) + (if segs[i] == "" then [] else [EncodeSegment(segs[i])])
  {
    assert segs[..i + 1][..i] == segs[..i];
  }

  lemma TerminatedSnoc(parts: seq<string>, p: string)
    ensures Terminated(parts + [p]) == Terminated(parts) + p + "/"
  {
    assert (parts + [p])[..|parts|] == parts;
  }

  /** The builder after segment `i`: unchanged for an empty segment, else
      the segment's encoding and a '/' appended. */
  lemma BuilderStep(segs: seq<string>, i: nat, start: string, sb: string)
    requires i < |segs| && sb == start + Terminated(Encoded(segs[..i]))
    ensures (if segs[i] == "" then sb else sb + EncodeSegment(segs[i]) + "/")
         == start + Terminated(Encoded(segs[..i + 1]))
  {
    EncodedStep(segs, i);
    var before := Encoded(segs[..i]);
    if segs[i] != "" {
      var e := EncodeSegment(segs[i]);
      assert Encoded(segs[..i + 1]) == before + [e];
      TerminatedSnoc(before, e);
      Reassociate(start, Terminated(before), e, "/");
      assert Terminated(Encoded(segs[..i + 1])) == Terminated(before) + e + "/";
    } else {
      assert Encoded(segs[..i + 1]) == before;
    }
  }

  lemma Reassociate(a: string, b: string, c: string, d: string)
    ensures a + b + c + d == a + (b + c + d)
  {
  }

  /** Dropping the builder's final '/' gives the public URL. */
  lemma BuilderDone(relative: string, sb: string)
    requires sb == FilesPrefix + "/" + Terminated(Encoded(Segments(relative)))
    ensures |sb| > 0 && sb[|sb| - 1] == '/' && sb[..|sb| - 1] == PublicUrl(relative)
  {
    var es := Encoded(Segments(relative));
    if es != [] {
      TerminatedJoin(es);
    }
  }

  /** `toPublicUrl`: append each encoded non-empty segment and a '/', then
      drop the final '/' (there always is one). */
  method ToPublicUrl(relative: string) returns (url: string)
    ensures url == PublicUrl(relative)
  {
    var urlPath := Text.ReplaceChar(relative, '\\', '/');
    var segs := Text.Split(urlPath, '/');
    var sb := FilesPrefix + "/";
    for i := 0 to |segs|
      invariant sb == FilesPrefix + "/" + Terminated(Encoded(segs[..i]))
    {
      BuilderStep(segs, i, FilesPrefix + "/", sb);
      if segs[i] != "" {
        sb := sb + EncodeSegment(segs[i]) + "/";
      }
    }
    assert segs[..|segs|] == segs;
    BuilderDone(relative, sb);
    url := sb[..|sb| - 1];
  }

  /** Pieces without the separator split back out of their join. */
  lemma {:induction false} SplitJoined(parts: seq<string>, sep: char)
    requires parts != []
    requires forall i :: 0 <= i < |parts| ==> sep !in parts[i]
    ensures Text.Split(Text.Join(parts, sep), sep) == parts
    decreases |parts|
  {
    if |parts| == 1 {
      Text.SplitWhole(parts[0], sep);
    } else {
      SplitJoined(parts[1..], sep);
      Text.SplitAt(parts[0], Text.Join(parts[1..], sep), sep);
    }
  }

  /** A public URL starts with "/files", never ends with '/', and the path
      after "/files/" splits back into exactly the encoded non-empty segments
      of the file's relative path: no empty segment and no stray '/'. */
  lemma PublicUrlShape(relative: string)
    ensures var url := PublicUrl(relative);
      && url[..|FilesPrefix|] == FilesPrefix
      && url[|url| - 1] != '/'
      && (Encoded(Segments(relative)) != [] ==>
            |url| > |FilesPrefix| + 1 && url[|FilesPrefix|] == '/'
            && Text.Split(url[|FilesPrefix| + 1..], '/') == Encoded(Segments(relative)))
  {
    var es := Encoded(Segments(relative));
    if es != [] {
      var url := PublicUrl(relative);
      assert url[|FilesPrefix| + 1..] == Text.Join(es, '/');
      SplitJoined(es, '/');
      JoinEnd(es, '/');
      assert |Text.Join(es, '/')| > 0;
    }
  }

  /** A join of non-empty pieces ends with the last piece's last character. */
  lemma {:induction false} JoinEnd(parts: seq<string>, sep: char)
    requires parts != [] && forall i :: 0 <= i < |parts| ==> parts[i] != "" && sep !in parts[i]
    ensures |Text.Join(parts, sep)| > 0
    ensures Text.Join(parts, sep)[|Text.Join(parts, sep)| - 1] != sep
    decreases |parts|
  {
    if |parts| > 1 {
      JoinEnd(parts[1..], sep);
    } else {
      assert parts[0][|parts[0]| - 1] in parts[0];
    }
  }

  /** Backslashes separate segments exactly as slashes do. */
  lemma BackslashIsSeparator(a: string, b: string)
    ensures PublicUrl(a + "\\" + b) == PublicUrl(a + "/" + b)
  {
    assert Text.ReplaceChar(a + "\\" + b, '\\', '/') == Text.ReplaceChar(a + "/" + b, '\\', '/');
  }

  // ---------------------------------------------------------------------
  // Content types

  /** A name ending in `a` cannot also end in a longer `b` whose own ending
      differs from `a`. */
  lemma SuffixClash(s: string, a: string, b: string)
    requires Text.EndsWith(s, a) && |a| <= |b| && b[|b| - |a|..] != a
    ensures !Text.EndsWith(s, b)
  {
  }

  /** `guessContentTypeByExtension`: by the lower-cased file name's suffix. */
  function GuessContentType(filename: string): (ct: string)
    ensures var lower := Text.Lower(filename);
      && (ct == "image/png" <==> Text.EndsWith(lower, ".png"))
      && (ct == "image/jpeg" <==> Text.EndsWith(lower, ".jpg") || Text.EndsWith(lower, ".jpeg"))
      && (ct == "image/gif" <==> Text.EndsWith(lower, ".gif"))
      && (ct == "image/bmp" <==> Text.EndsWith(lower, ".bmp"))
      && (ct == "image/webp" <==> Text.EndsWith(lower, ".webp"))
      && (ct == "application/octet-stream" <==>
            !(Text.EndsWith(lower, ".png") || Text.EndsWith(lower, ".jpg") || Text.EndsWith(lower, ".jpeg")
              || Text.EndsWith(lower, ".gif") || Text.EndsWith(lower, ".bmp") || Text.EndsWith(lower, ".webp")))
  {
    var lower := Text.Lower(filename);
    if Text.EndsWith(lower, ".png") then
      SuffixClash(lower, ".png", ".jpg");
      SuffixClash(lower, ".png", ".jpeg");
      "image/png"
    else if Text.EndsWith(lower, ".jpg") || Text.EndsWith(lower, ".jpeg") then "image/jpeg"
    else if Text.EndsWith(lower, ".gif") then "image/gif"
    else if Text.EndsWith(lower, ".bmp") then SuffixClash(lower, ".bmp", ".webp"); "image/bmp"
    else if Text.EndsWith(lower, ".webp") then "image/webp"
    else "application/octet-stream"
  }

  // ---------------------------------------------------------------------
  // Listings

  /** The path of a file relative to the storage root. */
  function RelativePath(d: Dir, name: string): string
  {
    RelativeDir(d) + "/" + name
  }

  /** `listUrlsForType`: the public URLs of the directory's files, newest
      first, cut to the limit. `listing` gives the regular files of a
      directory, newest first, or nothing when the directory does not exist. */
  function ListUrlsForType(listing: Dir -> Option<seq<string>>, id: int, kind: string, limit: Option<int>)
    : (r: Result<seq<string>>)
    ensures r.Err? <==> ResolveDir(id, Some(kind)).Err?
    ensures r.Err? ==> r.error == IllegalArgument
    ensures r.Ok? && listing(ResolveDir(id, Some(kind)).value).None? ==> r.value == []
    ensures r.Ok? && listing(ResolveDir(id, Some(kind)).value).Some? ==>
      var d := ResolveDir(id, Some(kind)).value;
      var names := Truncate(listing(d).value, limit);
      |r.value| == |names| && forall i :: 0 <= i < |names| ==> r.value[i] == PublicUrl(RelativePath(d, names[i]))
  {
    var d :- ResolveDir(id, Some(kind));
    var files := listing(d);
    if files.None? then Ok([])
    else
      var names := Truncate(files.value, limit);
      Ok(seq(|names|, i requires 0 <= i < |names| => PublicUrl(RelativePath(d, names[i]))))
  }

  /** `listByType`: without a type (null or blank), the baseline list then
      the maintenance list, each cut to the limit on its own; otherwise the
      list of the trimmed, lower-cased type. */
  function ListByType(listing: Dir -> Option<seq<string>>, id: int, kind: Option<string>, limit: Option<int>)
    : (r: Result<seq<string>>)
    ensures kind.None? || Text.IsBlank(kind.value) ==>
      r.Ok? && r.value == ListUrlsForType(listing, id, "baseline", limit).value
                          + ListUrlsForType(listing, id, "maintenance", limit).value
    ensures kind.Some? && !Text.IsBlank(kind.value) ==>
      r == ListUrlsForType(listing, id, Text.Lower(Text.Trim(kind.value)), limit)
  {
    if kind.None? || Text.IsBlank(kind.value) then
      assert Text.Lower("baseline") == "baseline" && Text.Lower("maintenance") == "maintenance";
      Ok(ListUrlsForType(listing, id, "baseline", limit).value + ListUrlsForType(listing, id, "maintenance", limit).value)
    else ListUrlsForType(listing, id, Text.Lower(Text.Trim(kind.value)), limit)
  }

  /** With a positive limit and no type, at most `limit` URLs of each kind
      come back. */
  lemma UntypedListingBounded(listing: Dir -> Option<seq<string>>, id: int, limit: int)
    requires limit > 0
    ensures |ListByType(listing, id, None, Some(limit)).value| <= 2 * limit
  {
    assert Text.Lower("baseline") == "baseline" && Text.Lower("maintenance") == "maintenance";
  }
}
