/** Desktop file ids: the encoder that drops the data directory and turns '/' into '-'
    (UnityCore/DesktopUtilities.cpp), and the launcher that guesses its way back by turning one '-'
    after another into '/' (dash/ApplicationStarterImp.cpp). Ids follow the "Desktop File ID" part of
    section 2 of the freedesktop Desktop Entry Specification. */
module DesktopId {

  datatype Option<+T> = None | Some(value: T)

  // ---------------------------------------------------------------------------------
  // The encoder

  function ApplicationsDir(dir: string): string
    requires dir != ""
  {
    if dir[|dir| - 1] == '/' then dir + "applications/" else dir + "/applications/"
  }

  /** The file lies somewhere below the applications directory of dir. */
  predicate Holds(dir: string, file: string) {
    dir != "" && ApplicationsDir(dir) <= file
  }

  ghost predicate IsFirstHolder(paths: seq<string>, file: string, i: nat) {
    i < |paths| && Holds(paths[i], file) && forall j | 0 <= j < i :: !Holds(paths[j], file)
  }

  function Dashed(c: char): char {
    if c == '/' then '-' else c
  }

  function Encoded(suffix: string): string {
    seq(|suffix|, i requires 0 <= i < |suffix| => Dashed(suffix[i]))
  }

  /** The id of a file: what follows the first applications directory that holds it, encoded, and the whole file
      when none does. */
  ghost predicate IsIdOf(paths: seq<string>, file: string, id: string) {
    && (forall i: nat | IsFirstHolder(paths, file, i) :: id == Encoded(file[|ApplicationsDir(paths[i])|..]))
    && ((forall i | 0 <= i < |paths| :: !Holds(paths[i], file)) ==> id == file)
  }

  /** An empty path or a path that unescapes to nothing has the empty id. */
  method GetDesktopID(paths: seq<string>, path: string, unescape: string -> string) returns (id: string)
    ensures path == "" ==> id == ""
    ensures path != "" ==> IsIdOf(paths, unescape(path), id)
  {
    if path == "" {
      return "";
    }
    var file := unescape(path);
    if file == "" {
      return "";
    }
    for n := 0 to |paths|
      invariant forall j | 0 <= j < n :: !Holds(paths[j], file)
    {
      var suffix := Below(paths[n], file);
      if suffix.Some? {
        assert forall i: nat | IsFirstHolder(paths, file, i) :: i == n;
        id := DashSlashes(suffix.value);
        return;
      }
    }
    return file;
  }

  /** The rest of the file's path below the applications directory of dir, if the file is there. */
  method Below(dir: string, file: string) returns (suffix: Option<string>)
    ensures suffix.Some? <==> Holds(dir, file)
    ensures suffix.Some? ==> suffix.value == file[|ApplicationsDir(dir)|..]
  {
    if dir == "" {
      return None;
    }
    var applications := dir + (if dir[|dir| - 1] == '/' then "applications/" else "/applications/");
    if applications <= file {
      return Some(file[|applications|..]);
    }
    return None;
  }

  method DashSlashes(suffix: string) returns (id: string)
    ensures id == Encoded(suffix)
  {
    id := suffix;
    for i := 0 to |suffix|
      invariant |id| == |suffix|
      invariant forall k | 0 <= k < |suffix| :: id[k] == if k < i then Dashed(suffix[k]) else suffix[k]
    {
      if id[i] == '/' {
        id := id[i := '-'];
      }
    }
  }

  /** The file is written below the applications directory of dir, whether or not dir ends with a slash. */
  ghost predicate IsBelow(dir: string, file: string, suffix: string) {
    dir != "" && file == dir + (if dir[|dir| - 1] == '/' then "applications/" else "/applications/") + suffix
  }

  lemma HoldsIff(dir: string, file: string)
    ensures Holds(dir, file) <==> exists suffix :: IsBelow(dir, file, suffix)
    ensures Holds(dir, file) ==> IsBelow(dir, file, file[|ApplicationsDir(dir)|..])
  {
    if Holds(dir, file) {
      var suffix := file[|ApplicationsDir(dir)|..];
      assert file == ApplicationsDir(dir) + suffix;
      assert IsBelow(dir, file, suffix);
    }
    forall suffix | IsBelow(dir, file, suffix) ensures Holds(dir, file) {
      assert file == ApplicationsDir(dir) + suffix;
    }
  }

  /** The id of a file below the applications directory of the i-th data directory, if no earlier one has it:
      the rest of the path, every '/' replaced by '-'. */
  lemma IdOfFileBelow(paths: seq<string>, i: nat, file: string, suffix: string, id: string)
    requires i < |paths| && IsBelow(paths[i], file, suffix) && IsIdOf(paths, file, id)
    requires forall j, rest | 0 <= j < i :: !IsBelow(paths[j], file, rest)
    ensures |id| == |suffix| && forall k | 0 <= k < |id| :: id[k] == if suffix[k] == '/' then '-' else suffix[k]
  {
    hide IsBelow, Encoded;
    forall j | 0 <= j <= i ensures Holds(paths[j], file) <==> j == i {
      HoldsIff(paths[j], file);
    }
    assert IsFirstHolder(paths, file, i);
    assert file[|ApplicationsDir(paths[i])|..] == suffix by {
      RestIsSuffix(paths[i], file, suffix);
    }
    EncodedAt(suffix);
  }

  lemma RestIsSuffix(dir: string, file: string, suffix: string)
    requires IsBelow(dir, file, suffix)
    ensures file[|ApplicationsDir(dir)|..] == suffix
  {
  }

  lemma EncodedAt(suffix: string)
    ensures |Encoded(suffix)| == |suffix|
    ensures forall k | 0 <= k < |suffix| :: Encoded(suffix)[k] == if suffix[k] == '/' then '-' else suffix[k]
  {
  }

  /** A file below none of them is its own id. */
  lemma IdOfOtherFile(paths: seq<string>, file: string, id: string)
    requires IsIdOf(paths, file, id) && forall j, rest | 0 <= j < |paths| :: !IsBelow(paths[j], file, rest)
    ensures id == file
  {
    forall j | 0 <= j < |paths| ensures !Holds(paths[j], file) {
      HoldsIff(paths[j], file);
    }
  }

  /** A slash at the end of a data directory makes no difference. */
  lemma SlashMakesNoDifference(dir: string, file: string, suffix: string)
    requires dir != "" && dir[|dir| - 1] != '/'
    ensures IsBelow(dir, file, suffix) <==> IsBelow(dir + "/", file, suffix)
    ensures IsBelow(dir, file, suffix) <==> file == dir + "/applications/" + suffix
  {
    assert dir + "/" + "applications/" == dir + "/applications/";
  }

  /** The id of a file in a subdirectory below /usr/share. */
  lemma IdBelowUsrShare(id: string)
    requires IsIdOf(["/usr/share"], "/usr/share" + "/applications/" + "kde/foo.desktop", id)
    ensures id == "kde-foo.desktop"
  {
    var dir, suffix := "/usr/share", "kde/foo.desktop";
    hide IsIdOf;
    assert dir[|dir| - 1] == 'e';
    SlashMakesNoDifference(dir, dir + "/applications/" + suffix, suffix);
    IdOfFileBelow([dir], 0, dir + "/applications/" + suffix, suffix, id);
  }

  /** The encoding is lossy exactly by confusing '/' with '-'. */
  lemma EncodedEqualIff(x: string, y: string)
    ensures Encoded(x) == Encoded(y) <==>
              |x| == |y| && forall i | 0 <= i < |x| :: x[i] == y[i] || (x[i] in "/-" && y[i] in "/-")
  {
    if Encoded(x) == Encoded(y) {
      forall i | 0 <= i < |x| ensures x[i] == y[i] || (x[i] in "/-" && y[i] in "/-") {
        assert Encoded(x)[i] == Encoded(y)[i];
        assert "/-"[0] == '/' && "/-"[1] == '-';
      }
    }
  }

  // ---------------------------------------------------------------------------------
  // The decoder

  function Count(s: string, c: char): nat {
    if s == "" then 0 else Count(s[..|s| - 1], c) + if s[|s| - 1] == c then 1 else 0
  }

  lemma CountStep(s: string, c: char, i: nat)
    requires i < |s|
    ensures Count(s[..i + 1], c) == Count(s[..i], c) + if s[i] == c then 1 else 0
  {
    assert s[..i + 1][..i] == s[..i];
  }

  lemma {:induction false} CountMonotone(s: string, c: char, i: nat, j: nat)
    requires i <= j <= |s|
    ensures Count(s[..i], c) <= Count(s[..j], c)
    ensures (exists k | i <= k < j :: s[k] == c) ==> Count(s[..i], c) < Count(s[..j], c)
    ensures (forall k | i <= k < j :: s[k] != c) ==> Count(s[..i], c) == Count(s[..j], c)
    decreases j
  {
    if i < j {
      CountStep(s, c, j - 1);
      CountMonotone(s, c, i, j - 1);
    }
  }

  /** The name with its first k dashes turned into slashes. */
  function Candidate(name: string, k: nat): string {
    seq(|name|, i requires 0 <= i < |name| => if name[i] == '-' && Count(name[..i], '-') < k then '/' else name[i])
  }

  lemma {:induction false} FirstDashesAreFew(name: string, k: nat, n: nat)
    requires n <= |name| && forall i | 0 <= i < n && name[i] == '-' :: Count(name[..i], '-') < k
    ensures Count(name[..n], '-') <= k
    decreases n
  {
    if n > 0 {
      FirstDashesAreFew(name, k, n - 1);
      CountStep(name, '-', n - 1);
    }
  }

  /** Turning the first dash of the k-th candidate into a slash gives the next candidate. */
  lemma NextCandidate(name: string, k: nat, pos: nat)
    requires pos < |name| && Candidate(name, k)[pos] == '-'
    requires forall i | 0 <= i < pos :: Candidate(name, k)[i] != '-'
    ensures k < Count(name, '-') && Candidate(name, k)[pos := '/'] == Candidate(name, k + 1)
  {
    var c, d := Candidate(name, k), Candidate(name, k + 1);
    forall i | 0 <= i < pos && name[i] == '-' ensures Count(name[..i], '-') < k {
      assert c[i] != '-';
    }
    FirstDashesAreFew(name, k, pos);
    assert Count(name[..pos], '-') == k;
    assert name[..|name|] == name;
    CountMonotone(name, '-', pos, |name|);
    forall i | 0 <= i < |name| ensures c[pos := '/'][i] == d[i] {
      if i > pos {
        CountMonotone(name, '-', pos, i);
        assert i > pos && name[pos] == '-';
      }
    }
  }

  lemma LastCandidate(name: string, k: nat)
    requires forall i | 0 <= i < |name| :: Candidate(name, k)[i] != '-'
    ensures Count(name, '-') <= k
  {
    forall i | 0 <= i < |name| && name[i] == '-' ensures Count(name[..i], '-') < k {
      assert Candidate(name, k)[i] != '-';
    }
    FirstDashesAreFew(name, k, |name|);
    assert name[..|name|] == name;
  }

  method FindFirstOf(s: string, c: char) returns (pos: int)
    ensures -1 <= pos < |s|
    ensures pos >= 0 ==> s[pos] == c && forall i | 0 <= i < pos :: s[i] != c
    ensures pos < 0 ==> forall i | 0 <= i < |s| :: s[i] != c
  {
    for i := 0 to |s|
      invariant forall j | 0 <= j < i :: s[j] != c
    {
      if s[i] == c {
        return i;
      }
    }
    return -1;
  }

  /** The lookups of one launch: the candidates in order, up to the first that is known or the last. */
  ghost predicate IsSearch(name: string, known: string -> bool, tried: seq<string>) {
    && 1 <= |tried| <= Count(name, '-') + 1
    && (forall k | 0 <= k < |tried| :: tried[k] == Candidate(name, k))
    && (forall k | 0 <= k < |tried| - 1 :: !known(tried[k]))
    && (known(tried[|tried| - 1]) || |tried| == Count(name, '-') + 1)
  }

  /** Looks up the candidates in order and starts the first that is known; known and starts stand for
      the desktop database and the start of a process. */
  method Launch(name: string, known: string -> bool, starts: string -> bool) returns (ok: bool, tried: seq<string>)
    ensures IsSearch(name, known, tried)
    ensures ok <==> known(tried[|tried| - 1]) && starts(tried[|tried| - 1])
  {
    var id := name;
    tried := [];
    assert id == Candidate(name, 0);
    while true
      invariant |tried| <= Count(name, '-') && id == Candidate(name, |tried|)
      invariant forall k | 0 <= k < |tried| :: tried[k] == Candidate(name, k) && !known(tried[k])
      decreases Count(name, '-') - |tried|
    {
      tried := tried + [id];
      if known(id) {
        if starts(id) {
          return true, tried;
        }
        break;
      }
      var pos := FindFirstOf(id, '-');
      if pos >= 0 {
        NextCandidate(name, |tried| - 1, pos);
        id := id[pos := '/'];
      } else {
        LastCandidate(name, |tried| - 1);
        break;
      }
    }
    return false, tried;
  }

  // ---------------------------------------------------------------------------------
  // When the decoder undoes the encoder

  /** Every '/' comes before every '-'. */
  predicate SlashesFirst(x: string) {
    forall i, j | 0 <= i < j < |x| && x[i] == '-' :: x[j] != '/'
  }

  /** Without slashes in the name, the k-th candidate has k of them. */
  lemma {:induction false} CandidateSlashes(name: string, k: nat, n: nat)
    requires '/' !in name && n <= |name|
    ensures Count(Candidate(name, k)[..n], '/') == if Count(name[..n], '-') < k then Count(name[..n], '-') else k
    decreases n
  {
    if n > 0 {
      CandidateSlashes(name, k, n - 1);
      CountStep(name, '-', n - 1);
      CountStep(Candidate(name, k), '/', n - 1);
      assert name[n - 1] in name;
    }
  }

  lemma {:induction false} DashesOfEncoded(x: string, n: nat)
    requires n <= |x|
    ensures Count(Encoded(x)[..n], '-') == Count(x[..n], '/') + Count(x[..n], '-')
    decreases n
  {
    if n > 0 {
      DashesOfEncoded(x, n - 1);
      CountStep(x, '-', n - 1);
      CountStep(x, '/', n - 1);
      CountStep(Encoded(x), '-', n - 1);
    }
  }

  lemma SlashesFirstIsReached(x: string)
    requires SlashesFirst(x)
    ensures Candidate(Encoded(x), Count(x, '/')) == x
  {
    var e, k := Encoded(x), Count(x, '/');
    assert x[..|x|] == x;
    forall i | 0 <= i < |x| ensures Candidate(e, k)[i] == x[i] {
      DashesOfEncoded(x, i);
      if x[i] == '/' {
        assert forall j | 0 <= j < i :: x[j] != '-';
        CountMonotone(x, '-', 0, i);
        CountMonotone(x, '/', i, |x|);
        assert i <= i < |x| && x[i] == '/';
      } else if x[i] == '-' {
        CountMonotone(x, '/', i, |x|);
      }
    }
  }

  /** The k-th candidate of the id is the original file exactly when the file has its slashes first
      and k of them. */
  lemma CandidateRestoresIff(x: string, k: nat)
    requires k <= Count(Encoded(x), '-')
    ensures Candidate(Encoded(x), k) == x <==> SlashesFirst(x) && k == Count(x, '/')
  {
    var e := Encoded(x);
    assert e[..|e|] == e && x[..|x|] == x;
    if SlashesFirst(x) && k == Count(x, '/') {
      SlashesFirstIsReached(x);
    }
    if Candidate(e, k) == x {
      CandidateSlashes(e, k, |e|);
      forall i, j | 0 <= i < j < |x| && x[i] == '-' ensures x[j] != '/' {
        assert Candidate(e, k)[i] == '-' && e[i] == '-';
        CountMonotone(e, '-', i, j);
        assert x[j] == Candidate(e, k)[j];
      }
    }
  }

  /** The candidates of the id of x include x exactly when x has its slashes before its dashes. */
  lemma LaunchReachesIff(x: string)
    ensures (exists k | 0 <= k <= Count(Encoded(x), '-') :: Candidate(Encoded(x), k) == x) <==> SlashesFirst(x)
  {
    if SlashesFirst(x) {
      SlashesFirstIsReached(x);
      DashesOfEncoded(x, |x|);
      assert x[..|x|] == x && Encoded(x)[..|x|] == Encoded(x);
      assert Candidate(Encoded(x), Count(x, '/')) == x;
    }
    forall k | 0 <= k <= Count(Encoded(x), '-') ensures Candidate(Encoded(x), k) == x ==> SlashesFirst(x) {
      CandidateRestoresIff(x, k);
    }
  }

  /** The launcher tries the original file exactly when the file has its slashes before its dashes and
      none of the candidates with fewer slashes is known; and then it starts that file or nothing. */
  lemma LaunchTriesIff(x: string, known: string -> bool, tried: seq<string>)
    requires IsSearch(Encoded(x), known, tried)
    ensures x in tried <==>
              SlashesFirst(x) && forall k | 0 <= k < Count(x, '/') :: !known(Candidate(Encoded(x), k))
    ensures x in tried && known(x) ==> tried[|tried| - 1] == x
  {
    var e, n := Encoded(x), Count(x, '/');
    forall k: nat | k < |tried| ensures tried[k] == x <==> SlashesFirst(x) && k == n {
      CandidateRestoresIff(x, k);
    }
    if SlashesFirst(x) && forall k | 0 <= k < n :: !known(Candidate(e, k)) {
      DashesOfEncoded(x, |x|);
      assert x[..|x|] == x && e[..|e|] == e;
      assert tried[n] == x;
    }
  }

  /** A known file that differs only in a dash shadows a file in a subdirectory, although that file has
      its slashes first. */
  lemma DashShadowsSubdirectory(tried: seq<string>)
    requires IsSearch(Encoded("kde/foo.desktop"), s => s == "kde-foo.desktop" || s == "kde/foo.desktop", tried)
    ensures SlashesFirst("kde/foo.desktop") && "kde/foo.desktop" !in tried && tried == ["kde-foo.desktop"]
  {
    var x, known := "kde/foo.desktop", (s: string) => s == "kde-foo.desktop" || s == "kde/foo.desktop";
    var e := Encoded(x);
    assert e == "kde-foo.desktop";
    assert Candidate(e, 0) == e;
    assert known(tried[0]);
    assert |tried| == 1;
  }

  /** A file in a directory whose name has a dash is stored under an id that never leads back to it. */
  lemma DashedDirectoryIsLost(k: nat)
    requires k <= Count(Encoded("kde-apps/foo.desktop"), '-')
    ensures Candidate(Encoded("kde-apps/foo.desktop"), k) != "kde-apps/foo.desktop"
  {
    var x := "kde-apps/foo.desktop";
    assert x[3] == '-' && x[8] == '/';
    CandidateRestoresIff(x, k);
  }
}
