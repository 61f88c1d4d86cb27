/** `ImagesFile.list_images` (modules/models/images_file.py): the lines of the
    image file list that name published images, turned into URLs on the image
    server.  Reading the Latin-1 file is not part of this model: the input is
    its lines as `readlines()` returns them. */
module ImagesFile {
  import opened Text
  import Seqs

  const ImageHost: string := "http://images.monasterium.net/"

  /** `_use_image`: one of four published folders, but not the thumbnails. */
  predicate UseImage(image: string) {
    && (|| StartsWith(image, "./img")
        || StartsWith(image, "./pics")
        || StartsWith(image, "./illum/IllUrk")
        || StartsWith(image, "./mom-italia"))
    && !StartsWith(image, "./illum/IllUrk/thumbnails")
  }

  /** The test `list_images` applies: to the stripped line. */
  predicate Accepted(line: string) {
    UseImage(Strip(line))
  }

  /** The URL `list_images` emits for an accepted line: the raw line decides
      whether it is rewritten onto the image host. */
  function ImageUrl(line: string): string {
    if StartsWith(line, "./") then ImageHost + Strip(line[2..]) else Strip(line)
  }

  /** `list_images`: one URL per accepted line, in line order, and nothing else. */
  function ListImages(lines: seq<string>): (urls: seq<string>)
    ensures |urls| <= |lines|
    ensures forall i :: 0 <= i < |lines| && Accepted(lines[i]) ==> ImageUrl(lines[i]) in urls
    ensures forall u :: u in urls ==> exists i :: 0 <= i < |lines| && Accepted(lines[i]) && u == ImageUrl(lines[i])
  {
    Seqs.FilterMap(lines, Accepted, ImageUrl)
  }

  /** Line order is kept and each line yields at most one URL: the URLs of
      two runs of lines are those of the first run followed by those of the
      second, and a single line yields its URL exactly when it is accepted. */
  lemma ListImagesOrder(a: seq<string>, b: seq<string>, line: string)
    ensures ListImages(a + b) == ListImages(a) + ListImages(b)
    ensures ListImages([line]) == if Accepted(line) then [ImageUrl(line)] else []
  {
    Seqs.FilterMapAppend(a, b, Accepted, ImageUrl);
    Seqs.FilterMapOne(line, Accepted, ImageUrl);
  }

  /** A line without leading whitespace that passes the filter starts with
      "./", so it is always rewritten onto the image host. */
  lemma AcceptedLineIsRewritten(line: string)
    requires Accepted(line) && (|line| == 0 || !IsSpace(line[0]))
    ensures StartsWith(line, "./")
    ensures ImageUrl(line) == ImageHost + Strip(line[2..])
  {
    assert TrimLeft(line) == line;
    var s := Strip(line);
    assert s == line[..|s|];
    if StartsWith(s, "./img") {
      DotSlashPrefix(s, "./img");
    } else if StartsWith(s, "./pics") {
      DotSlashPrefix(s, "./pics");
    } else if StartsWith(s, "./illum/IllUrk") {
      DotSlashPrefix(s, "./illum/IllUrk");
    } else {
      DotSlashPrefix(s, "./mom-italia");
    }
    assert line[..2] == s[..2];
  }

  /** Text that starts with a prefix beginning "./" starts with "./". */
  lemma DotSlashPrefix(s: string, prefix: string)
    requires StartsWith(s, prefix) && |prefix| >= 2 && prefix[..2] == "./"
    ensures |s| >= 2 && s[..2] == "./"
  {
    assert s[..2] == s[..|prefix|][..2];
  }

  /** A line with leading whitespace can pass the filter (it tests the stripped
      line) but is emitted stripped and not rewritten. */
  lemma IndentedLineIsNotRewritten(line: string)
    requires |line| > 0 && IsSpace(line[0])
    ensures ImageUrl(line) == Strip(line)
  {
    assert !StartsWith(line, "./") by {
      if |line| >= 2 {
        assert line[..2][0] == line[0];
      }
    }
  }

  /** `"   ./img/a.jpg"` passes the filter and comes out as `"./img/a.jpg"`. */
  lemma IndentedExample()
    ensures Accepted("   ./img/a.jpg")
    ensures ImageUrl("   ./img/a.jpg") == "./img/a.jpg"
  {
    ExampleStrip();
    ExampleUsed();
    IndentedLineIsNotRewritten("   ./img/a.jpg");
  }

  lemma ExampleStrip()
    ensures Strip("   ./img/a.jpg") == "./img/a.jpg"
  {
    var body := "./img/a.jpg";
    assert "   ./img/a.jpg" == "   " + body;
    TrimLeftSpaces("   ", body);
    assert !IsSpace(body[|body| - 1]);
  }

  lemma ExampleUsed()
    ensures UseImage("./img/a.jpg")
  {
    assert "./img/a.jpg"[..5] == "./img";
  }

  lemma TrimLeftSpaces(pad: string, body: string)
    requires forall i :: 0 <= i < |pad| ==> IsSpace(pad[i])
    requires |body| > 0 && !IsSpace(body[0])
    ensures TrimLeft(pad + body) == body
    decreases |pad|
  {
    if |pad| > 0 {
      assert (pad + body)[1..] == pad[1..] + body;
      TrimLeftSpaces(pad[1..], body);
    } else {
      assert pad + body == body;
    }
  }

  /** Thumbnails of the illuminated charters are never listed. */
  lemma ThumbnailsRejected(rest: string)
    ensures !UseImage("./illum/IllUrk/thumbnails" + rest)
  {
    var s := "./illum/IllUrk/thumbnails" + rest;
    assert s[..|"./illum/IllUrk/thumbnails"|] == "./illum/IllUrk/thumbnails";
  }
}
