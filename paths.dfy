/** The file names `diarize_audio` derives from the upload: the temporary
    file's suffix comes from the upload's file name through POSIX
    `os.path.splitext`, and the converted file sits next to it. */
module Paths {

  /** `p.rfind(c)`: the last index holding `c`, or -1 when there is none. */
  function LastIndex(p: string, c: char): (i: int)
    ensures -1 <= i < |p|
    ensures i >= 0 ==> p[i] == c
    ensures forall k :: i < k < |p| ==> p[k] != c
  {
    if p == [] then -1
    else if p[|p| - 1] == c then |p| - 1
    else LastIndex(p[..|p| - 1], c)
  }

  /** The last path component holds a dot that comes after some character
      other than a dot: exactly when `splitext` finds an extension. */
  predicate HasExtension(p: string)
  {
    exists i, j :: LastIndex(p, '/') < i < j < |p| && p[i] != '.' && p[j] == '.'
  }

  predicate EndsWith(s: string, suffix: string)
  {
    |suffix| <= |s| && s[|s| - |suffix|..] == suffix
  }

  /** POSIX `os.path.splitext(p)`: the extension runs from the last dot of
      the last component, unless everything before that dot in the component
      is dots (a leading-dot name such as ".bashrc" has no extension). */
  function SplitExt(p: string): (parts: (string, string))
    ensures parts.0 + parts.1 == p
    ensures parts.1 != [] <==> HasExtension(p)
    ensures parts.1 != [] ==> parts.1[0] == '.'
    ensures forall k :: 0 < k < |parts.1| ==> parts.1[k] != '.' && parts.1[k] != '/'
  {
    var sep := LastIndex(p, '/');
    var dot := LastIndex(p, '.');
    if dot > sep && exists k :: sep < k < dot && p[k] != '.' then
      assert sep < dot;
      (p[..dot], p[dot..])
    else
      (p, [])
  }

  /** `os.path.splitext(file.filename)[1] or ".wav"`: the temporary file
      keeps the upload's extension, and gets ".wav" when it has none. */
  function UploadSuffix(filename: string): (suffix: string)
    ensures |suffix| > 0 && suffix[0] == '.'
    ensures HasExtension(filename) ==> EndsWith(filename, suffix) && suffix == SplitExt(filename).1
    ensures forall k :: 0 < k < |suffix| ==> suffix[k] != '.' && suffix[k] != '/'
    ensures !HasExtension(filename) ==> suffix == ".wav"
  {
    var ext := SplitExt(filename).1;
    if ext == [] then ".wav" else ext
  }

  /** `tmp_path + ".converted.wav"`: a different path that extends the
      temporary one. */
  function ConvertedPath(tmpPath: string): (wavPath: string)
    ensures |tmpPath| < |wavPath| && wavPath[..|tmpPath|] == tmpPath
    ensures EndsWith(wavPath, ".wav")
  {
    tmpPath + ".converted.wav"
  }
}
