/** The storage name the sign-up form gives an uploaded icon: the ISO time with its punctuation
    removed, slotted between the file's base name and its extension, under the `icons/` folder
    (frontend/src/partials/StylistSignUpForm.jsx, lines 71, 72, 75 and 82). */
module IconFileName {
  import opened Wrappers
  import opened Sequences

  /** The characters of the pattern `/[-T:.Z]/g`. */
  predicate IsTimestampPunctuation(c: char) {
    c == '-' || c == 'T' || c == ':' || c == '.' || c == 'Z'
  }

  /** `isoString.replace(/[-T:.Z]/g, '')`, one character at a time. */
  function StripTimestamp(iso: string): (ts: string)
    ensures |ts| <= |iso|
  {
    if |iso| == 0 then ""
    else if IsTimestampPunctuation(iso[0]) then StripTimestamp(iso[1..])
    else [iso[0]] + StripTimestamp(iso[1..])
  }

  /** None of the pattern's characters survive, and every other character survives as often as
      it occurred. */
  lemma {:induction false} StripTimestampCharacters(iso: string)
    ensures var ts := StripTimestamp(iso);
      && (forall i :: 0 <= i < |ts| ==> !IsTimestampPunctuation(ts[i]))
      && (forall c :: !IsTimestampPunctuation(c) ==> multiset(ts)[c] == multiset(iso)[c])
  {
    if |iso| > 0 {
      StripTimestampCharacters(iso[1..]);
      assert iso == [iso[0]] + iso[1..];
    }
  }

  /** The surviving characters keep their order: the timestamp is a subsequence of the ISO text. */
  lemma {:induction false} StripTimestampIsSubsequence(iso: string)
    ensures IsSubsequence(StripTimestamp(iso), iso)
  {
    if |iso| > 0 {
      StripTimestampIsSubsequence(iso[1..]);
      if IsTimestampPunctuation(iso[0]) {
        SubsequenceOfTail(StripTimestamp(iso), iso);
      }
    }
  }

  /** Stripping works piece by piece. */
  lemma {:induction false} StripTimestampAppend(a: string, b: string)
    ensures StripTimestamp(a + b) == StripTimestamp(a) + StripTimestamp(b)
  {
    if |a| > 0 {
      assert (a + b)[1..] == a[1..] + b;
      StripTimestampAppend(a[1..], b);
    } else {
      assert a + b == b;
    }
  }

  /** Text without any of the pattern's characters is left as it is. */
  lemma {:induction false} StripTimestampKeepsPlainText(s: string)
    requires forall i :: 0 <= i < |s| ==> !IsTimestampPunctuation(s[i])
    ensures StripTimestamp(s) == s
  {
    if |s| > 0 {
      StripTimestampKeepsPlainText(s[1..]);
    }
  }

  predicate IsDigit(c: char) { '0' <= c <= '9' }

  /** The shape `Date.prototype.toISOString` produces for years 0 to 9999:
      `YYYY-MM-DDTHH:mm:ss.sssZ`. */
  predicate IsIsoUtcTimestamp(s: string) {
    && |s| == 24
    && s[4] == '-' && s[7] == '-' && s[10] == 'T' && s[13] == ':' && s[16] == ':'
    && s[19] == '.' && s[23] == 'Z'
    && (forall i :: 0 <= i < 24 && i != 4 && i != 7 && i != 10 && i != 13 && i != 16 && i != 19 && i != 23
          ==> IsDigit(s[i]))
  }

  /** For such a timestamp the result is its seven digit runs, `YYYYMMDDHHmmsssss`. */
  lemma IsoTimestampRuns(iso: string)
    requires IsIsoUtcTimestamp(iso)
    ensures StripTimestamp(iso)
      == iso[0..4] + (iso[5..7] + (iso[8..10] + (iso[11..13] + (iso[14..16] + (iso[17..19] + iso[20..23])))))
  {
    StripRun(iso, 0, 4);
    StripRun(iso, 5, 7);
    StripRun(iso, 8, 10);
    TimeRuns(iso);
    assert iso[0..] == iso;
  }

  /** Helper for IsoTimestampRuns: the time of day, from the hours on. */
  lemma TimeRuns(iso: string)
    requires IsIsoUtcTimestamp(iso)
    ensures StripTimestamp(iso[11..]) == iso[11..13] + (iso[14..16] + (iso[17..19] + iso[20..23]))
  {
    StripRun(iso, 11, 13);
    StripRun(iso, 14, 16);
    StripRun(iso, 17, 19);
    StripRun(iso, 20, 23);
    assert StripTimestamp(iso[24..]) == "";
  }

  /** Hence the result is seventeen digits. */
  lemma IsoTimestampDigits(iso: string)
    requires IsIsoUtcTimestamp(iso)
    ensures |StripTimestamp(iso)| == 17
    ensures forall i :: 0 <= i < 17 ==> IsDigit(StripTimestamp(iso)[i])
  {
    IsoTimestampRuns(iso);
    var ts := StripTimestamp(iso);
    forall i | 0 <= i < 17 ensures IsDigit(ts[i]) {
      var j := if i < 4 then i else if i < 6 then i + 1 else if i < 8 then i + 2
        else if i < 10 then i + 3 else if i < 12 then i + 4 else if i < 14 then i + 5 else i + 6;
      assert ts[i] == iso[j];
    }
  }

  /** Helper for IsoTimestampDigits: a run of digits `s[i..j]` ended by one punctuation
      character `s[j]` strips to the run itself. */
  lemma StripRun(s: string, i: nat, j: nat)
    requires i <= j < |s|
    requires forall k :: i <= k < j ==> IsDigit(s[k])
    requires IsTimestampPunctuation(s[j])
    ensures StripTimestamp(s[i..]) == s[i..j] + StripTimestamp(s[j + 1..])
  {
    assert s[i..] == s[i..j] + ([s[j]] + s[j + 1..]);
    StripTimestampAppend(s[i..j], [s[j]] + s[j + 1..]);
    StripTimestampKeepsPlainText(s[i..j]);
    assert ([s[j]] + s[j + 1..])[1..] == s[j + 1..];
  }

  /** The position of the last `c` in `s`, if any. */
  function LastIndexOf(s: string, c: char): (k: Option<nat>)
    ensures k.None? <==> c !in s
    ensures k.Some? ==> k.value < |s| && s[k.value] == c && c !in s[k.value + 1..]
  {
    if |s| == 0 then None
    else if s[|s| - 1] == c then Some(|s| - 1)
    else
      assert s == s[..|s| - 1] + [s[|s| - 1]];
      var k := LastIndexOf(s[..|s| - 1], c);
      if k.Some? then
        assert s[k.value + 1..] == s[..|s| - 1][k.value + 1..] + [s[|s| - 1]];
        k
      else k
  }

  /** A position holding `c` with no `c` after it is the one LastIndexOf finds. */
  lemma LastIndexOfUnique(s: string, c: char, k: nat)
    requires k < |s| && s[k] == c && c !in s[k + 1..]
    ensures LastIndexOf(s, c) == Some(k)
  {
  }

  /** `name.split(sep)`: the pieces between the separators, as JavaScript returns them
      (an empty `name` gives one empty piece). */
  function Split(s: string, sep: char): (parts: seq<string>)
    ensures |parts| >= 1
    ensures forall i :: 0 <= i < |parts| ==> sep !in parts[i]
  {
    if |s| == 0 then [""]
    else
      var rest := Split(s[1..], sep);
      if s[0] == sep then [""] + rest
      else [[s[0]] + rest[0]] + rest[1..]
  }

  /** `parts.join(sep)`, the inverse of Split. */
  function Join(parts: seq<string>, sep: char): string
  {
    if |parts| == 0 then ""
    else if |parts| == 1 then parts[0]
    else parts[0] + [sep] + Join(parts[1..], sep)
  }

  /** Splitting and joining again gives back the name. */
  lemma {:induction false} JoinSplit(s: string, sep: char)
    ensures Join(Split(s, sep), sep) == s
  {
    if |s| > 0 {
      var rest := Split(s[1..], sep);
      JoinSplit(s[1..], sep);
      if s[0] == sep {
        assert s == [sep] + s[1..];
      } else {
        assert s == [s[0]] + s[1..];
        if |rest| > 1 {
          assert rest == [rest[0]] + rest[1..];
        }
      }
    }
  }

  /** The text after the last `sep`, or all of `s` when it has none. */
  function AfterLast(s: string, sep: char): (t: string)
    ensures sep !in t
  {
    match LastIndexOf(s, sep)
    case None => s
    case Some(k) => s[k + 1..]
  }

  /** The last piece of a split is the text after the last separator. */
  lemma {:induction false} SplitLast(s: string, sep: char)
    ensures var parts := Split(s, sep); parts[|parts| - 1] == AfterLast(s, sep)
  {
    if |s| > 0 {
      var rest := Split(s[1..], sep);
      SplitLast(s[1..], sep);
      var tail := LastIndexOf(s[1..], sep);
      if tail.Some? {
        LastIndexOfUnique(s, sep, tail.value + 1);
        assert s[tail.value + 2..] == s[1..][tail.value + 1..];
        if s[0] != sep {
          assert sep in rest[|rest| - 1] || |rest| > 1 by {
            if |rest| == 1 {
              SplitSingle(s[1..], sep);
            }
          }
        }
      } else {
        if s[0] == sep {
          LastIndexOfUnique(s, sep, 0);
        } else {
          assert s == [s[0]] + s[1..];
          SplitSingle(s[1..], sep);
        }
      }
    }
  }

  /** A split has a single piece exactly when there is no separator. */
  lemma {:induction false} SplitSingle(s: string, sep: char)
    ensures |Split(s, sep)| == 1 <==> sep !in s
    ensures |Split(s, sep)| == 1 ==> Split(s, sep)[0] == s
  {
    if |s| > 0 {
      SplitSingle(s[1..], sep);
      assert s == [s[0]] + s[1..];
    }
  }

  /** `name.split('.').pop()`. */
  function Extension(name: string): (ext: string)
    ensures '.' !in ext
  {
    var parts := Split(name, '.');
    parts[|parts| - 1]
  }

  /** Where the pattern `/\.[^/.]+$/` matches `name`: a `.` at `p` followed by one or more
      characters, running to the end, none of them `/` or `.`. */
  predicate ExtensionMatchAt(name: string, p: int) {
    && 0 <= p < |name| - 1
    && name[p] == '.'
    && forall j :: p < j < |name| ==> name[j] != '/' && name[j] != '.'
  }

  /** `name.replace(/\.[^/.]+$/, '')`: the match can only start at the last `.`, so the name
      loses everything from its last `.` on when what follows is non-empty and free of `/`. */
  function StripExtension(name: string): (base: string)
    ensures |base| <= |name| && base == name[..|base|]
  {
    match LastIndexOf(name, '.')
    case None => name
    case Some(k) => if k + 1 < |name| && '/' !in name[k + 1..] then name[..k] else name
  }

  /** Where the pattern matches, the name is cut at the match ... */
  lemma StripExtensionAtMatch(name: string, p: int)
    requires ExtensionMatchAt(name, p)
    ensures StripExtension(name) == name[..p]
  {
  }

  /** ... and where it matches nowhere, the name is left whole. */
  lemma StripExtensionNoMatch(name: string)
    requires forall p :: !ExtensionMatchAt(name, p)
    ensures StripExtension(name) == name
  {
    match LastIndexOf(name, '.')
    case None =>
    case Some(k) =>
      if k + 1 < |name| && '/' !in name[k + 1..] {
        assert ExtensionMatchAt(name, k) by {
          forall j | k < j < |name| ensures name[j] != '/' && name[j] != '.' {
            assert name[j] == name[k + 1..][j - k - 1];
          }
        }
      }
  }

  /** With a proper extension, base, `.` and extension give back the original name. */
  lemma BaseDotExtension(name: string, p: int)
    requires ExtensionMatchAt(name, p)
    ensures StripExtension(name) + "." + Extension(name) == name
  {
    StripExtensionAtMatch(name, p);
    SplitLast(name, '.');
    LastIndexOfUnique(name, '.', p);
    assert name == name[..p] + [name[p]] + name[p + 1..];
  }

  /** Without any `.`, base and extension are both the whole name. */
  lemma NoDotName(name: string)
    requires '.' !in name
    ensures StripExtension(name) == name && Extension(name) == name
  {
    SplitLast(name, '.');
  }

  /** The template literal `${base}_${timestamp}.${extension}` on line 72. */
  function FileNameWithTimestamp(name: string, timestamp: string): string
  {
    StripExtension(name) + "_" + timestamp + "." + Extension(name)
  }

  /** The stored file keeps the icon's extension, whatever the timestamp, as long as the
      timestamp has no `.` (StripTimestamp removes every `.`). */
  lemma FileNameKeepsExtension(name: string, timestamp: string)
    requires '.' !in timestamp
    ensures Extension(FileNameWithTimestamp(name, timestamp)) == Extension(name)
  {
    var fileName := FileNameWithTimestamp(name, timestamp);
    var prefix := StripExtension(name) + "_" + timestamp;
    var ext := Extension(name);
    SplitLast(name, '.');
    SplitLast(fileName, '.');
    assert fileName == prefix + "." + ext;
    assert fileName[|prefix| + 1..] == ext;
    LastIndexOfUnique(fileName, '.', |prefix|);
  }

  /** For a name `base.ext` with a proper extension, the file name is `base_timestamp.ext`. */
  lemma FileNameOfProperName(name: string, p: int, timestamp: string)
    requires ExtensionMatchAt(name, p)
    ensures FileNameWithTimestamp(name, timestamp) == name[..p] + "_" + timestamp + "." + name[p + 1..]
  {
    StripExtensionAtMatch(name, p);
    SplitLast(name, '.');
    LastIndexOfUnique(name, '.', p);
  }

  /** For a name with no `.`, the whole name appears on both sides: `name_timestamp.name`. */
  lemma FileNameOfDotlessName(name: string, timestamp: string)
    requires '.' !in name
    ensures FileNameWithTimestamp(name, timestamp) == name + "_" + timestamp + "." + name
  {
    NoDotName(name);
  }

  /** `icons/${fileName}`, the storage reference and the `iconPath` (lines 75 and 82). */
  function IconPath(fileName: string): string
  {
    "icons/" + fileName
  }
}
