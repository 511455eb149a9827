/** How the proxy names its files: the cache folder before the client's path,
    and `@` with the descriptor behind it for a private copy
    (15440-p2/final/Proxy.java). */
module PathNames {
  import opened Decimal

  function CachePath(folder: string, path: string): string {
    folder + path
  }

  function LocalPath(folder: string, path: string, fd: int): string {
    CachePath(folder, path) + "@" + Text(fd)
  }

  /** The first descriptor the proxy hands out. */
  const FIRST_FD := 2000

  /** `q` is `p` with `@` and this descriptor behind it. */
  predicate IsCopyOf(q: string, p: string, fd: int) {
    q == p + "@" + Text(fd)
  }

  /** No path is another one with `@` and a descriptor behind it. */
  ghost predicate Apart(paths: set<string>) {
    forall p, q, fd :: p in paths && q in paths && fd >= FIRST_FD ==> !IsCopyOf(q, p, fd)
  }

  lemma ApartAlone(path: string)
    ensures Apart({path})
  {
    forall fd ensures !IsCopyOf(path, path, fd) {
      assert |path + "@" + Text(fd)| > |path|;
    }
  }

  /** removeIntegerAtBack: cuts the last `@` and what follows. */
  function CutAt(s: string): string {
    if s == [] then [] else if s[|s| - 1] == '@' then s[..|s| - 1] else CutAt(s[..|s| - 1])
  }

  predicate StartsWith(s: string, prefix: string) {
    |prefix| <= |s| && s[..|prefix|] == prefix
  }

  /** String.replace(cacheFolder, ""): every occurrence goes, left to right. */
  function RemoveAll(s: string, word: string): string
    requires word != []
  {
    if s == [] then []
    else if StartsWith(s, word) then RemoveAll(s[|word|..], word)
    else [s[0]] + RemoveAll(s[1..], word)
  }

  /** The server path of a cached file's name. */
  function ServerPath(folder: string, name: string): string {
    if folder == [] then name else RemoveAll(name, folder)
  }

  predicate Occurs(s: string, word: string) {
    StartsWith(s, word) || (s != [] && Occurs(s[1..], word))
  }

  lemma {:induction false} CutSuffix(s: string, digits: string)
    requires '@' !in digits
    ensures CutAt(s + "@" + digits) == s
  {
    var whole := s + "@" + digits;
    if digits == [] {
      assert whole[..|whole| - 1] == s;
    } else {
      assert whole[|whole| - 1] == digits[|digits| - 1];
      assert whole[..|whole| - 1] == s + "@" + digits[..|digits| - 1];
      CutSuffix(s, digits[..|digits| - 1]);
    }
  }

  lemma TextPlain(fd: int)
    ensures '@' !in Text(fd)
  {
    NatTextDigits(if fd < 0 then -fd else fd);
  }

  /** From a private copy's name the proxy always finds the cached file again,
      even when the client's path contains an `@`. */
  lemma CutLocalPath(folder: string, path: string, fd: int)
    ensures CutAt(LocalPath(folder, path, fd)) == CachePath(folder, path)
  {
    TextPlain(fd);
    CutSuffix(CachePath(folder, path), Text(fd));
  }

  lemma {:induction false} RemoveAllShorter(s: string, word: string)
    requires word != []
    ensures |RemoveAll(s, word)| <= |s|
    ensures RemoveAll(s, word) == s <==> !Occurs(s, word)
    ensures Occurs(s, word) ==> |RemoveAll(s, word)| < |s|
  {
    if s != [] {
      if StartsWith(s, word) {
        RemoveAllShorter(s[|word|..], word);
      } else {
        RemoveAllShorter(s[1..], word);
      }
    }
  }

  /** The server path is recovered from the cached file's name exactly when the
      folder's name does not occur in the client's path. */
  lemma ServerPathExact(folder: string, path: string)
    ensures ServerPath(folder, CachePath(folder, path)) == path <==> folder == [] || !Occurs(path, folder)
  {
    assert CachePath(folder, path)[|folder|..] == path;
    if folder != [] {
      RemoveAllShorter(path, folder);
    }
  }

  lemma {:induction false} LastAt(a: string, b: string, x: string, y: string)
    requires '@' !in b && '@' !in y
    requires a + "@" + b == x + "@" + y
    ensures a == x && b == y
  {
    CutSuffix(a, b);
    CutSuffix(x, y);
    var s := a + "@" + b;
    assert s[|a| + 1..] == b;
    assert (x + "@" + y)[|x| + 1..] == y;
  }

  lemma LocalPathInjective(folder: string, p: string, q: string, fd: int, fe: int)
    requires LocalPath(folder, p, fd) == LocalPath(folder, q, fe)
    ensures p == q && fd == fe
  {
    hide Text;
    TextPlain(fd);
    TextPlain(fe);
    LastAt(CachePath(folder, p), Text(fd), CachePath(folder, q), Text(fe));
    CachePathInjective(folder, p, q);
    TextInjective(fd, fe);
  }

  /** Cached files of different paths have different names, so have private
      copies; and a cached file is named like a private copy exactly when its
      path is the copy's with `@` and the descriptor behind it. */
  lemma NamesDistinct(folder: string, p: string, q: string, fd: int, fe: int)
    ensures CachePath(folder, p) == CachePath(folder, q) <==> p == q
    ensures LocalPath(folder, p, fd) == LocalPath(folder, q, fe) <==> p == q && fd == fe
    ensures CachePath(folder, p) == LocalPath(folder, q, fd) <==> IsCopyOf(p, q, fd)
  {
    CachePathInjective(folder, p, q);
    if LocalPath(folder, p, fd) == LocalPath(folder, q, fe) {
      LocalPathInjective(folder, p, q, fd, fe);
    }
    NameOfCopy(folder, p, q, fd);
  }

  lemma NameOfCopy(folder: string, p: string, q: string, fd: int)
    ensures CachePath(folder, p) == LocalPath(folder, q, fd) <==> IsCopyOf(p, q, fd)
  {
    hide Text;
    var copy := q + "@" + Text(fd);
    assert LocalPath(folder, q, fd) == CachePath(folder, copy);
    CachePathInjective(folder, p, copy);
  }

  lemma CachePathInjective(folder: string, p: string, q: string)
    ensures CachePath(folder, p) == CachePath(folder, q) ==> p == q
  {
    assert CachePath(folder, p)[|folder|..] == p;
    assert CachePath(folder, q)[|folder|..] == q;
  }
}
