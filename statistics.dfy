/**
  The report that the command-line entry point prints (sfm/__main__.py):
  for a list of files, how many there are and how many bytes they take, and
  the same for the files whose `mimetype` mentions "image".
*/
module Statistics {
  import opened Records
  import opened Enrichment

  /** `needle` occurs in `hay` starting at index `i`. */
  predicate OccursAt(needle: string, hay: string, i: int) {
    0 <= i && i + |needle| <= |hay| && hay[i..i + |needle|] == needle
  }

  /** Python's `needle in hay` on strings: a substring test, not a prefix test. */
  function Contains(needle: string, hay: string): bool
    decreases |hay|
  {
    if |hay| < |needle| then false
    else hay[..|needle|] == needle || Contains(needle, hay[1..])
  }

  /** `'image' in file['mimetype']`. */
  predicate IsImage(f: FileRecord) {
    Contains("image", f.mimetype)
  }

  /** The files the loop counts as images, in order. */
  function Images(files: seq<FileRecord>): (r: seq<FileRecord>)
    ensures forall i :: 0 <= i < |r| ==> IsImage(r[i])
  {
    if files == [] then []
    else
      var f := files[|files| - 1];
      Images(files[..|files| - 1]) + (if IsImage(f) then [f] else [])
  }

  /** The sum of `size` over the files. */
  function TotalSize(files: seq<FileRecord>): int {
    if files == [] then 0 else TotalSize(files[..|files| - 1]) + files[|files| - 1].size
  }

  /** Every size is non-negative, as the platform reports byte counts. */
  ghost predicate SizesNonNegative(files: seq<FileRecord>) {
    forall i :: 0 <= i < |files| ==> files[i].size >= 0
  }

  /** Counts and byte totals for one list of files. */
  datatype Tally = Tally(count: nat, imageCount: nat, bytes: int, imageBytes: int)

  /** The figures printed for a list: its length and byte total, and those of its image files. */
  function TallyOf(files: seq<FileRecord>): Tally {
    Tally(|files|, |Images(files)|, TotalSize(files), TotalSize(Images(files)))
  }

  /**
    One of the two loops on lines 38-56: count the files, sum their sizes, and
    do the same for the image files among them.
  */
  method Summarize(files: seq<FileRecord>) returns (t: Tally)
    ensures t.count == |files|
    ensures t.imageCount == |Images(files)|
    ensures t.bytes == TotalSize(files)
    ensures t.imageBytes == TotalSize(Images(files))
    ensures t == TallyOf(files)
  {
    var imageCount := 0;
    var bytes := 0;
    var imageBytes := 0;
    for i := 0 to |files|
      invariant imageCount == |Images(files[..i])|
      invariant bytes == TotalSize(files[..i])
      invariant imageBytes == TotalSize(Images(files[..i]))
    {
      var f := files[i];
      assert files[..i + 1][..i] == files[..i];
      if Contains("image", f.mimetype) {
        ghost var before := Images(files[..i]);
        assert (before + [f])[..|before|] == before;
        assert Images(files[..i + 1]) == before + [f];
        assert TotalSize(before + [f]) == TotalSize(before) + f.size;
        imageCount := imageCount + 1;
        imageBytes := imageBytes + f.size;
      }
      bytes := bytes + f.size;
      assert !IsImage(f) ==> Images(files[..i + 1]) == Images(files[..i]);
    }
    assert files[..|files|] == files;
    t := Tally(|files|, imageCount, bytes, imageBytes);
  }

  /** `Contains` is true exactly when the needle occurs somewhere in the string. */
  lemma {:induction false} ContainsIffOccurs(needle: string, hay: string)
    ensures Contains(needle, hay) <==> exists i :: OccursAt(needle, hay, i)
    decreases |hay|
  {
    if |hay| >= |needle| {
      if hay[..|needle|] == needle {
        assert OccursAt(needle, hay, 0);
        return;
      }
      forall i | OccursAt(needle, hay, i) && i > 0
        ensures OccursAt(needle, hay[1..], i - 1)
      {
        assert hay[1..][i - 1..i - 1 + |needle|] == hay[i..i + |needle|];
      }
      forall j | OccursAt(needle, hay[1..], j)
        ensures OccursAt(needle, hay, j + 1)
      {
        assert hay[1..][j..j + |needle|] == hay[j + 1..j + 1 + |needle|];
      }
      ContainsIffOccurs(needle, hay[1..]);
    }
  }

  /** A file is counted as an image exactly when it is in the list and its `mimetype` contains "image". */
  lemma {:induction false} ImagesMembers(files: seq<FileRecord>, g: FileRecord)
    ensures g in Images(files) <==> g in files && IsImage(g)
  {
    if files != [] {
      var n := |files|;
      ImagesMembers(files[..n - 1], g);
      assert files == files[..n - 1] + [files[n - 1]];
    }
  }

  /** The image files are a subsequence of the files: every file that mentions "image" is kept, in order. */
  lemma {:induction false} ImagesIsSubsequence(files: seq<FileRecord>)
    ensures IsSubsequence(Images(files), files)
  {
    if files != [] {
      var n := |files|;
      ImagesIsSubsequence(files[..n - 1]);
      var a := Images(files);
      if IsImage(files[n - 1]) {
        assert a[|a| - 1] == files[n - 1];
        assert a[..|a| - 1] == Images(files[..n - 1]);
      } else {
        assert a == Images(files[..n - 1]);
      }
    }
  }

  /** With non-negative sizes, the total is non-negative. */
  lemma {:induction false} TotalSizeNonNegative(files: seq<FileRecord>)
    requires SizesNonNegative(files)
    ensures TotalSize(files) >= 0
  {
    if files != [] {
      var n := |files|;
      var init := files[..n - 1];
      assert SizesNonNegative(init) by {
        forall i | 0 <= i < n - 1 ensures init[i].size >= 0 {
          assert init[i] == files[i];
        }
      }
      TotalSizeNonNegative(files[..n - 1]);
    }
  }

  /** A subsequence of files with non-negative sizes has no more files and no more bytes. */
  lemma {:induction false} SubsequenceWithinTotals(a: seq<FileRecord>, b: seq<FileRecord>)
    requires IsSubsequence(a, b)
    requires SizesNonNegative(b)
    ensures |a| <= |b|
    ensures TotalSize(a) <= TotalSize(b)
    decreases |b|
  {
    if a == [] {
      TotalSizeNonNegative(b);
    } else {
      var n := |b|;
      var b' := b[..n - 1];
      assert SizesNonNegative(b') by {
        forall i | 0 <= i < n - 1 ensures b'[i].size >= 0 {
          assert b'[i] == b[i];
        }
      }
      if a[|a| - 1] == b[n - 1] && IsSubsequence(a[..|a| - 1], b') {
        SubsequenceWithinTotals(a[..|a| - 1], b');
      } else {
        SubsequenceWithinTotals(a, b');
      }
    }
  }

  /** Image counts and bytes never exceed the totals they are part of. */
  lemma ImagesWithinTotals(files: seq<FileRecord>)
    requires SizesNonNegative(files)
    ensures |Images(files)| <= |files|
    ensures TotalSize(Images(files)) <= TotalSize(files)
  {
    ImagesIsSubsequence(files);
    SubsequenceWithinTotals(Images(files), files);
  }

  /** Selecting images and selecting abandoned files can be done in either order. */
  lemma {:induction false} FiltersCommute(files: seq<FileRecord>, cutoff: int)
    ensures Images(Abandoned(files, cutoff)) == Abandoned(Images(files), cutoff)
  {
    if files != [] {
      var n := |files|;
      var f := files[n - 1];
      var init := files[..n - 1];
      FiltersCommute(init, cutoff);
      var ab := Abandoned(init, cutoff);
      var im := Images(init);
      if IsAbandoned(f, cutoff) {
        assert (ab + [f])[..|ab|] == ab;
      } else {
        assert Abandoned(files, cutoff) == ab;
      }
      if IsImage(f) {
        assert (im + [f])[..|im|] == im;
      } else {
        assert Images(files) == im;
      }
    }
  }

  /**
    The abandoned files' figures never exceed the figures for all files, for
    the whole list and for its images alike.
  */
  lemma AbandonedWithinTotals(files: seq<FileRecord>, cutoff: int)
    requires SizesNonNegative(files)
    ensures |Abandoned(files, cutoff)| <= |files|
    ensures TotalSize(Abandoned(files, cutoff)) <= TotalSize(files)
    ensures |Images(Abandoned(files, cutoff))| <= |Images(files)|
    ensures TotalSize(Images(Abandoned(files, cutoff))) <= TotalSize(Images(files))
  {
    AbandonedIsSubsequence(files, cutoff);
    SubsequenceWithinTotals(Abandoned(files, cutoff), files);
    FiltersCommute(files, cutoff);
    ImagesIsSubsequence(files);
    var images := Images(files);
    assert SizesNonNegative(images) by {
      ImagesSizes(files);
    }
    AbandonedIsSubsequence(images, cutoff);
    SubsequenceWithinTotals(Abandoned(images, cutoff), images);
  }

  /** The abandoned files keep the files' sizes, so they keep their non-negativity. */
  lemma {:induction false} AbandonedSizes(files: seq<FileRecord>, cutoff: int)
    requires SizesNonNegative(files)
    ensures SizesNonNegative(Abandoned(files, cutoff))
  {
    if files != [] {
      var n := |files|;
      var init := files[..n - 1];
      assert SizesNonNegative(init) by {
        forall i | 0 <= i < n - 1 ensures init[i].size >= 0 {
          assert init[i] == files[i];
        }
      }
      AbandonedSizes(init, cutoff);
    }
  }

  /** The image files keep the files' sizes, so they keep their non-negativity. */
  lemma {:induction false} ImagesSizes(files: seq<FileRecord>)
    requires SizesNonNegative(files)
    ensures SizesNonNegative(Images(files))
  {
    if files != [] {
      var n := |files|;
      var init := files[..n - 1];
      assert SizesNonNegative(init) by {
        forall i | 0 <= i < n - 1 ensures init[i].size >= 0 {
          assert init[i] == files[i];
        }
      }
      ImagesSizes(files[..n - 1]);
    }
  }

  /** "text/plain" does not contain "image": no position holds its first letter. */
  lemma PlainTextIsNoImage()
    ensures !Contains("image", "text/plain")
  {
    var plain := "text/plain";
    forall i | 0 <= i && i + 5 <= |plain|
      ensures !OccursAt("image", plain, i)
    {
      assert plain[i..i + 5][0] == plain[i] != 'i';
    }
    ContainsIffOccurs("image", plain);
  }

  /** "image/png" and "image/jpeg" contain "image", at their start. */
  lemma ImageTypesAreImages()
    ensures Contains("image", "image/png") && Contains("image", "image/jpeg")
  {
  }

  /**
    Three files of 100, 200 and 300 bytes typed image/png, text/plain and
    image/jpeg: three files of 600 bytes, two of them images of 400 bytes.
  */
  lemma ThreeFileExample(f1: FileRecord, f2: FileRecord, f3: FileRecord)
    requires f1.mimetype == "image/png" && f1.size == 100
    requires f2.mimetype == "text/plain" && f2.size == 200
    requires f3.mimetype == "image/jpeg" && f3.size == 300
    ensures TallyOf([f1, f2, f3]) == Tally(3, 2, 600, 400)
  {
    ImageTypesAreImages();
    PlainTextIsNoImage();
    var s1, s2, s3 := [f1], [f1, f2], [f1, f2, f3];
    assert s2[..1] == s1 && s3[..2] == s2 && s1[..0] == [];
    assert IsImage(f1) && !IsImage(f2) && IsImage(f3);
    assert Images(s1) == [f1];
    assert Images(s2) == [f1];
    assert Images(s3) == [f1, f3];
    assert [f1, f3][..1] == s1;
    assert TotalSize(s1) == 100;
    assert TotalSize(s2) == 300;
  }
}
