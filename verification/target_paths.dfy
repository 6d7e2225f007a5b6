/**
  The name of the generated Go file that precompile writes next to a Gno
  source file: `strings.TrimSuffix(srcPath, ".gno") + ".gno.gen.go"`.
 */
module TargetPaths {

  type Path = string

  /** Extension of Gno source files. */
  const GnoExt: string := ".gno"

  /** What is appended to a `.gno` path to name its generated file. */
  const GenExt: string := ".gen.go"

  /** Fixed suffix of every generated file. */
  const GenSuffix: string := ".gno.gen.go"

  predicate EndsWith(s: string, suffix: string) {
    |suffix| <= |s| && s[|s| - |suffix|..] == suffix
  }

  /** Go's `strings.TrimSuffix`: `s` without a trailing `suffix`, or `s` itself. */
  function TrimSuffix(s: string, suffix: string): (r: string)
    ensures EndsWith(s, suffix) ==> r + suffix == s
    ensures !EndsWith(s, suffix) ==> r == s
    ensures |r| <= |s|
  {
    if EndsWith(s, suffix) then s[..|s| - |suffix|] else s
  }

  /** The generated file for `src`. */
  function TargetPath(src: Path): (target: Path)
    ensures EndsWith(src, GnoExt) ==> target == src + GenExt
    ensures !EndsWith(src, GnoExt) ==> target == src + GenSuffix
    ensures EndsWith(target, GenSuffix)
    ensures |src| < |target| && target != src
  {
    var stem := TrimSuffix(src, GnoExt);
    assert EndsWith(src, GnoExt) ==> stem + GenSuffix == src + GenExt by {
      assert GenSuffix == GnoExt + GenExt;
      if EndsWith(src, GnoExt) {
        assert stem + GenSuffix == (stem + GnoExt) + GenExt;
      }
    }
    stem + GenSuffix
  }

  /** The Gno source a generated file was made from (inverse of TargetPath on `.gno` files). */
  function SourcePath(target: Path): (src: Path)
    ensures EndsWith(target, GenExt) ==> src + GenExt == target
  {
    TrimSuffix(target, GenExt)
  }

  /** Going from a `.gno` file to its generated file and back returns the source. */
  lemma SourceOfTarget(src: Path)
    requires EndsWith(src, GnoExt)
    ensures SourcePath(TargetPath(src)) == src
  {
    var t := TargetPath(src);
    assert t == src + GenExt;
    assert t[|t| - |GenExt|..] == GenExt;
    assert t[..|t| - |GenExt|] == src;
  }

  /** Distinct `.gno` files never share a generated file. */
  lemma TargetPathInjectiveOnGno(a: Path, b: Path)
    requires EndsWith(a, GnoExt) && EndsWith(b, GnoExt)
    requires TargetPath(a) == TargetPath(b)
    ensures a == b
  {
    SourceOfTarget(a);
    SourceOfTarget(b);
  }

  /**
    A path without the `.gno` extension (which precompile accepts when it is
    named explicitly) gets the same generated file as its `.gno` sibling.
   */
  lemma TargetCollision(s: Path)
    requires !EndsWith(s, GnoExt)
    ensures EndsWith(s + GnoExt, GnoExt)
    ensures TargetPath(s) == TargetPath(s + GnoExt)
    ensures s != s + GnoExt
  {
    var g := s + GnoExt;
    assert g[|g| - |GnoExt|..] == GnoExt;
    assert g + GenExt == s + GenSuffix;
  }
}
