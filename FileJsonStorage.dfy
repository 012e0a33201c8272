/**
 * The key-to-file-name mapping of `FileJsonStorage`: `GetFilePath` and
 * the inverse mapping `GetAllKeys` applies to every file it lists. Paths
 * are joined as `Path.Combine` does with `/` as the directory separator.
 */
module FileJsonStorages {
  /** `s.Replace(from, to)` for single characters: every occurrence of `from` becomes `to`. */
  function Replace(s: string, from: char, to: char): (r: string)
    ensures |r| == |s|
    ensures forall i :: 0 <= i < |s| ==> r[i] == if s[i] == from then to else s[i]
  {
    seq(|s|, i requires 0 <= i < |s| => if s[i] == from then to else s[i])
  }

  /** A character as the sanitising replacements leave it. */
  function SafeChar(c: char): char
  {
    if c == '/' || c == '\\' || c == ':' then '_' else c
  }

  /** The safe key of `GetFilePath`: `/`, `\` and `:` replaced by `_`, in that order. */
  function Sanitize(key: string): (r: string)
    ensures |r| == |key|
    ensures forall i :: 0 <= i < |key| ==> r[i] == SafeChar(key[i])
  {
    Replace(Replace(Replace(key, '/', '_'), '\\', '_'), ':', '_')
  }

  /** A safe key holds none of the three characters, and every other character is kept where it was. */
  lemma SanitizeSafe(key: string)
    ensures forall i :: 0 <= i < |key| ==> Sanitize(key)[i] !in {'/', '\\', ':'}
    ensures forall i :: 0 <= i < |key| && key[i] !in {'/', '\\', ':'} ==> Sanitize(key)[i] == key[i]
  {
  }

  /** Sanitising twice is sanitising once. */
  lemma SanitizeIdempotent(key: string)
    ensures Sanitize(Sanitize(key)) == Sanitize(key)
  {
  }

  /** `Path.Combine(root, name)`: `name` alone when it is rooted or `root` is empty, otherwise joined with one separator. */
  function Combine(root: string, name: string): (r: string)
    ensures |name| > 0 && name[0] == '/' ==> r == name
  {
    if |name| > 0 && name[0] == '/' then name
    else if root == "" then name
    else if root[|root| - 1] == '/' then root + name
    else root + "/" + name
  }

  /** `GetFilePath(key)`: the root joined with the safe key and the extension. */
  function GetFilePath(root: string, extension: string, key: string): string
  {
    Combine(root, Sanitize(key) + extension)
  }

  /** `TrimStart(c)`: the leading run of `c` removed. */
  function TrimStart(s: string, c: char): (r: string)
    ensures |r| <= |s| && r == s[|s| - |r|..]
    ensures r == [] || r[0] != c
  {
    if |s| > 0 && s[0] == c then TrimStart(s[1..], c) else s
  }

  /** The file name relative to the root, as `GetAllKeys` computes it. */
  function RelativePath(root: string, filePath: string): string
    requires |root| <= |filePath|
  {
    TrimStart(filePath[|root|..], '/')
  }

  /**
   * The key `GetAllKeys` reports for a listed file: the root and leading
   * separators stripped, the extension cut off, every `_` turned into `/`.
   * `Substring` throws unless the path is at least as long as the root and
   * the relative path at least as long as the extension, which every file
   * the listing returns meets.
   */
  function RecoverKey(root: string, extension: string, filePath: string): (r: string)
    requires |root| <= |filePath| && |extension| <= |RelativePath(root, filePath)|
    ensures |r| == |RelativePath(root, filePath)| - |extension|
  {
    var relative := RelativePath(root, filePath);
    Replace(relative[..|relative| - |extension|], '_', '/')
  }

  /** A character survives sanitising and recovery exactly when it is not `_`, `\` or `:`. */
  lemma CharRoundTrip(c: char)
    ensures (if SafeChar(c) == '_' then '/' else SafeChar(c)) == c <==> c !in {'_', '\\', ':'}
  {
  }

  /** The file name of a key, relative to the root, is the safe key and the extension. */
  lemma RelativeOfFilePath(root: string, extension: string, key: string)
    requires extension == [] || extension[0] != '/'
    requires Sanitize(key) + extension != []
    ensures |root| <= |GetFilePath(root, extension, key)|
    ensures RelativePath(root, GetFilePath(root, extension, key)) == Sanitize(key) + extension
  {
    var name := Sanitize(key) + extension;
    SanitizeSafe(key);
    assert name[0] != '/';
    var path := GetFilePath(root, extension, key);
    if root == "" {
      assert path == name && path[0..] == name;
    } else if root[|root| - 1] == '/' {
      assert path == root + name && path[|root|..] == name;
    } else {
      assert path == root + "/" + name && path[|root|..] == "/" + name;
      assert TrimStart("/" + name, '/') == TrimStart(name, '/') by {
        assert ("/" + name)[1..] == name;
      }
    }
  }

  /**
   * A key written by `GetFilePath` is reported back by `GetAllKeys`
   * unchanged exactly when it contains no `_`, `\` or `:`. (The extension
   * must not start with the separator.)
   */
  lemma {:induction false} KeyRoundTrip(root: string, extension: string, key: string)
    requires extension == [] || extension[0] != '/'
    requires Sanitize(key) + extension != []
    ensures |root| <= |GetFilePath(root, extension, key)|
    ensures |extension| <= |RelativePath(root, GetFilePath(root, extension, key))|
    ensures RecoverKey(root, extension, GetFilePath(root, extension, key)) == key <==>
            forall i :: 0 <= i < |key| ==> key[i] !in {'_', '\\', ':'}
  {
    RelativeOfFilePath(root, extension, key);
    var r := RecoverKey(root, extension, GetFilePath(root, extension, key));
    var safe := Sanitize(key);
    assert (safe + extension)[..|safe|] == safe;
    assert |r| == |key|;
    forall i | 0 <= i < |key| ensures r[i] == (if SafeChar(key[i]) == '_' then '/' else SafeChar(key[i])) {
    }
    if forall i :: 0 <= i < |key| ==> key[i] !in {'_', '\\', ':'} {
      forall i | 0 <= i < |key| ensures r[i] == key[i] {
        CharRoundTrip(key[i]);
      }
    } else {
      var i :| 0 <= i < |key| && key[i] in {'_', '\\', ':'};
      CharRoundTrip(key[i]);
      assert r[i] != key[i];
    }
  }

  /** Recovery turns every `_`, `\` and `:` of a key into `/` and keeps every other character. */
  lemma RecoveredChars(root: string, extension: string, key: string)
    requires extension == [] || extension[0] != '/'
    requires Sanitize(key) + extension != []
    ensures |root| <= |GetFilePath(root, extension, key)|
    ensures |extension| <= |RelativePath(root, GetFilePath(root, extension, key))|
    ensures var r := RecoverKey(root, extension, GetFilePath(root, extension, key));
            |r| == |key| &&
            forall i :: 0 <= i < |key| ==> r[i] == if key[i] in {'_', '\\', ':', '/'} then '/' else key[i]
  {
    RelativeOfFilePath(root, extension, key);
    var safe := Sanitize(key);
    assert (safe + extension)[..|safe|] == safe;
  }

  /** The part of `FileJsonStorage` that maps keys to files: its root and its extension. */
  class FileJsonStorage {
    /** `_rootPath`. */
    const rootPath: string
    /** `_fileExtension`. */
    const fileExtension: string

    /** `new FileJsonStorage(rootPath, serializer, fileExtension = ".json")` once its serializer check has passed. */
    constructor (rootPath: string, fileExtension: string := ".json")
      ensures this.rootPath == rootPath && this.fileExtension == fileExtension
    {
      this.rootPath := rootPath;
      this.fileExtension := fileExtension;
    }

    /** `GetFilePath(key)`. */
    function FilePath(key: string): string
    {
      GetFilePath(rootPath, fileExtension, key)
    }
  }
}
