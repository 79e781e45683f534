/** Saving a captured preview as a texture asset: the preview folder is
    created when missing, the file is named `Preview_<prefab>.png`, or
    `Preview_<prefab>_<k>.png` with the smallest `k >= 1` that is free, and
    the saved asset is loaded back. */
module PreviewAssets {
  import opened Hierarchy
  import opened Scene

  const PreviewFolder: string := "Assets/MaterialSetterPreviews"

  function Digit(d: nat): char
    requires d < 10
  {
    ('0' as int + d) as char
  }

  /** The decimal digits of `n`, as string interpolation writes them. */
  function Decimal(n: nat): (s: string)
    ensures 1 <= |s|
    ensures n >= 10 ==> |s| >= 2
  {
    if n < 10 then [Digit(n)] else Decimal(n / 10) + [Digit(n % 10)]
  }

  /** Different numbers are written differently. */
  lemma {:induction false} DecimalInjective(a: nat, b: nat)
    requires Decimal(a) == Decimal(b)
    ensures a == b
  {
    if a >= 10 && b >= 10 {
      var da, db := Decimal(a), Decimal(b);
      assert da[|da| - 1] == Digit(a % 10) && db[|db| - 1] == Digit(b % 10);
      assert da[..|da| - 1] == Decimal(a / 10) && db[..|db| - 1] == Decimal(b / 10);
      DecimalInjective(a / 10, b / 10);
    }
  }

  /** The file name tried on attempt `counter`: the plain name first, then
      the numbered ones. */
  function FileName(prefabName: string, counter: nat): string
  {
    if counter == 0 then "Preview_" + prefabName + ".png"
    else "Preview_" + prefabName + "_" + Decimal(counter) + ".png"
  }

  /** `Path.Combine(folderPath, fileName)`. */
  function Candidate(prefabName: string, counter: nat): string
  {
    PreviewFolder + "/" + FileName(prefabName, counter)
  }

  function Suffix(counter: nat): string
  {
    if counter == 0 then "" else "_" + Decimal(counter)
  }

  lemma CandidateParts(prefabName: string, counter: nat)
    ensures Candidate(prefabName, counter)
         == (PreviewFolder + "/" + "Preview_" + prefabName) + Suffix(counter) + ".png"
  {
  }

  /** Different attempts try different paths. */
  lemma CandidateInjective(prefabName: string, c1: nat, c2: nat)
    requires Candidate(prefabName, c1) == Candidate(prefabName, c2)
    ensures c1 == c2
  {
    var head := PreviewFolder + "/" + "Preview_" + prefabName;
    var s1, s2 := Suffix(c1), Suffix(c2);
    CandidateParts(prefabName, c1);
    CandidateParts(prefabName, c2);
    var p1, p2 := head + s1 + ".png", head + s2 + ".png";
    assert |s1| == |s2|;
    assert p1[|head|..|head| + |s1|] == s1;
    assert p2[|head|..|head| + |s2|] == s2;
    assert s1 == s2;
    if c1 != 0 && c2 != 0 {
      assert s1[1..] == Decimal(c1) && s2[1..] == Decimal(c2);
      DecimalInjective(c1, c2);
    }
  }

  function Tried(prefabName: string, n: nat): set<string>
  {
    set c: nat | c < n :: Candidate(prefabName, c)
  }

  lemma {:induction false} TriedCount(prefabName: string, n: nat)
    ensures |Tried(prefabName, n)| == n
  {
    if n > 0 {
      var k := n - 1;
      assert k + 1 == n;
      TriedCount(prefabName, k);
      TriedStep(prefabName, k);
      TriedFresh(prefabName, k);
    }
  }

  lemma TriedStep(prefabName: string, k: nat)
    ensures Tried(prefabName, k + 1) == Tried(prefabName, k) + {Candidate(prefabName, k)}
  {
  }

  /** Attempt `k` tries a path none of the earlier attempts tried. */
  lemma TriedFresh(prefabName: string, k: nat)
    ensures Candidate(prefabName, k) !in Tried(prefabName, k)
  {
    if Candidate(prefabName, k) in Tried(prefabName, k) {
      var c: nat :| c < k && Candidate(prefabName, c) == Candidate(prefabName, k);
      CandidateInjective(prefabName, c, k);
    }
  }

  lemma SubsetCard(s: set<string>, t: set<string>)
    requires s <= t
    ensures |s| <= |t|
  {
    assert t == s + (t - s);
  }

  /** `p` is the path the naming loop settles on: the first candidate not
      already holding a texture. */
  ghost predicate ChosenFor(textures: set<string>, prefabName: string, p: string)
  {
    exists k: nat :: p == Candidate(prefabName, k) && p !in textures
      && forall c: nat :: c < k ==> Candidate(prefabName, c) in textures
  }

  /** The loop's choice is determined: there is only one first free
      candidate. */
  lemma ChosenUnique(textures: set<string>, prefabName: string, p: string, q: string)
    requires ChosenFor(textures, prefabName, p) && ChosenFor(textures, prefabName, q)
    ensures p == q
  {
    var k: nat :| p == Candidate(prefabName, k) && p !in textures
      && forall c: nat :: c < k ==> Candidate(prefabName, c) in textures;
    var l: nat :| q == Candidate(prefabName, l) && q !in textures
      && forall c: nat :: c < l ==> Candidate(prefabName, c) in textures;
    assert !(k < l) && !(l < k);
  }

  /** When `Preview_<prefab>.png` is free it is the name chosen. */
  lemma PlainNameWhenFree(textures: set<string>, prefabName: string, p: string)
    requires Candidate(prefabName, 0) !in textures && ChosenFor(textures, prefabName, p)
    ensures p == Candidate(prefabName, 0)
  {
    var k: nat :| p == Candidate(prefabName, k) && p !in textures
      && forall c: nat :: c < k ==> Candidate(prefabName, c) in textures;
    assert k == 0;
  }

  /** The naming loop of `SavePreviewAsAsset`: the first candidate path
      holding no texture. It always stops, because the asset database holds
      finitely many textures and every attempt tries a new path. */
  method ChooseFilePath(db: AssetDatabase, prefabName: string) returns (filePath: string)
    ensures filePath !in db.textures
    ensures ChosenFor(db.textures, prefabName, filePath)
  {
    var fileName := "Preview_" + prefabName + ".png";
    filePath := PreviewFolder + "/" + fileName;
    var counter: nat := 1;
    while filePath in db.textures
      invariant 1 <= counter && filePath == Candidate(prefabName, counter - 1)
      invariant forall c: nat :: c < counter - 1 ==> Candidate(prefabName, c) in db.textures
      decreases |db.textures| - counter
    {
      assert Tried(prefabName, counter) <= db.textures;
      TriedCount(prefabName, counter);
      SubsetCard(Tried(prefabName, counter), db.textures);
      fileName := "Preview_" + prefabName + "_" + Decimal(counter) + ".png";
      filePath := PreviewFolder + "/" + fileName;
      counter := counter + 1;
    }
  }

  /** Where saving can fail: creating the folder (only attempted when it
      is missing) or writing the file throws, the exception being caught,
      or the written file does not load back as a texture. */
  datatype SaveFault = NoSaveFault | FolderFails | WriteFails | ReloadFails

  /** Whether `fault` makes the save fail, given the folders that exist. */
  predicate SaveFailed(fault: SaveFault, folders: set<string>)
  {
    match fault
    case NoSaveFault => false
    case FolderFails => PreviewFolder !in folders
    case WriteFails => true
    case ReloadFails => true
  }

  /** `SavePreviewAsAsset`: the preview folder exists afterwards unless
      creating it failed. On success the texture is stored under the chosen
      path and the loaded asset (same size, with that path) is returned; on
      failure the captured texture itself is returned and no texture asset
      is added. */
  method SavePreviewAsAsset(texture: Texture2D, prefabName: string, db: AssetDatabase, fault: SaveFault)
      returns (result: Texture2D)
    modifies db
    ensures db.folders == if fault == FolderFails then old(db.folders) else old(db.folders) + {PreviewFolder}
    ensures SaveFailed(fault, old(db.folders)) ==> result == texture && db.textures == old(db.textures)
    ensures !SaveFailed(fault, old(db.folders)) ==>
              && result.width == texture.width && result.height == texture.height
              && result.assetPath.Some?
              && ChosenFor(old(db.textures), prefabName, result.assetPath.value)
              && db.textures == old(db.textures) + {result.assetPath.value}
  {
    if PreviewFolder !in db.folders {
      if fault == FolderFails {
        return texture;
      }
      db.folders := db.folders + {PreviewFolder};
    }
    var filePath := ChooseFilePath(db, prefabName);
    if fault == WriteFails || fault == ReloadFails {
      return texture;
    }
    db.textures := db.textures + {filePath};
    result := Texture2D(texture.width, texture.height, Some(filePath));
  }
}
