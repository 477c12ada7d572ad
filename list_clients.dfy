// The string helpers of the client lister: which directory entries are C
// source or header files, whether two entries name the same module, and
// whether a line of a client file mentions a function. Names and lines are
// C strings; a `seq<char>` here holds the characters before the NUL, and an
// `array<char>` is a local buffer that holds a copy with its NUL.

module ListClients {
  import opened CTypes
  import Utils

  /** A C string's characters: none of them is NUL. */
  predicate NoNul(s: seq<char>)
  {
    '\0' !in s
  }

  /** `needle` occurs in `haystack` at position i. */
  predicate OccursAt(haystack: seq<char>, needle: seq<char>, i: nat)
  {
    i + |needle| <= |haystack| && haystack[i..i + |needle|] == needle
  }

  /** The characters of the C string stored at the start of a buffer. */
  function CStr(buffer: seq<char>): (s: seq<char>)
    requires '\0' in buffer
    ensures NoNul(s) && |s| < |buffer| && buffer[|s|] == '\0' && s == buffer[..|s|]
  {
    buffer[..Utils.NulIndex(buffer)]
  }

  /** The first NUL of a buffer is at k when buffer[k] is NUL and none comes before it. */
  lemma NulIndexAt(buffer: seq<char>, k: nat)
    requires k < |buffer| && buffer[k] == '\0' && '\0' !in buffer[..k]
    ensures Utils.NulIndex(buffer) == k
  {
  }

  /** file_type_is_valid: the name's first `nameLength` characters end in ".c", ".C", ".h" or ".H". */
  function FileTypeIsValid(name: seq<char>, nameLength: int): (r: bool)
    requires 2 <= nameLength <= |name|
    ensures r <==> name[nameLength - 2..nameLength] in [".c", ".C", ".h", ".H"]
  {
    var dot := name[nameLength - 2];
    var extent := name[nameLength - 1];
    assert name[nameLength - 2..nameLength] == [dot, extent];
    dot == '.' && (extent == 'c' || extent == 'C' || extent == 'h' || extent == 'H')
  }

  /**
   * remove_file_extent: a NUL two characters before `nameLength` cuts off
   * the extension; the stored string is then the stem.
   */
  method RemoveFileExtent(name: array<char>, nameLength: int)
    requires 2 <= nameLength <= name.Length
    modifies name
    ensures name[..] == old(name[..])[nameLength - 2 := '\0']
    ensures '\0' in name[..] && (NoNul(old(name[..nameLength - 2])) ==> CStr(name[..]) == old(name[..nameLength - 2]))
  {
    name[nameLength - 2] := '\0';
    assert name[..][nameLength - 2] == '\0';
    if NoNul(old(name[..nameLength - 2])) {
      assert name[..][..nameLength - 2] == old(name[..nameLength - 2]);
      NulIndexAt(name[..], nameLength - 2);
    }
  }

  /**
   * Two file names name the same module: their lengths agree as 8-bit
   * values, both end in a C or header extension at that length, and the
   * characters before the extension agree.
   */
  predicate SameModule(name1: seq<char>, name2: seq<char>)
    requires Wrap8(|name1|) == Wrap8(|name2|) ==> Wrap8(|name1|) >= 2
  {
    var len := Wrap8(|name1|) as int;
    Wrap8(|name2|) as int == len
    && FileTypeIsValid(name1, len) && FileTypeIsValid(name2, len)
    && name1[..len - 2] == name2[..len - 2]
  }

  /** The NUL-terminated copy of a C string. */
  lemma Terminated(name: seq<char>)
    requires NoNul(name)
    ensures '\0' in name + ['\0'] && Utils.NulIndex(name + ['\0']) == |name|
  {
    assert (name + ['\0'])[..|name|] == name;
    NulIndexAt(name + ['\0'], |name|);
  }

  /** A buffer holding a copy of `name` agrees with it on the extension and the stem. */
  lemma CopyAgrees(name: seq<char>, buffer: seq<char>, len: int)
    requires NoNul(name) && buffer == name + ['\0'] && 2 <= len <= |name|
    ensures FileTypeIsValid(buffer, len) == FileTypeIsValid(name, len)
    ensures buffer[..len - 2] == name[..len - 2] && NoNul(buffer[..len - 2])
  {
    assert buffer[len - 2..len] == name[len - 2..len];
  }

  /**
   * compare_file_names: copies both names to local buffers, takes their
   * lengths as 8-bit values, and, when the lengths agree and both are source
   * or header files, removes the extensions and compares the stems.
   */
  method CompareFileNames(name1: seq<char>, name2: seq<char>) returns (result: bool)
    requires NoNul(name1) && NoNul(name2)
    requires Wrap8(|name1|) == Wrap8(|name2|) ==> Wrap8(|name1|) >= 2
    ensures result == SameModule(name1, name2)
  {
    var locName1 := LocalCopy(name1);
    var locName2 := LocalCopy(name2);
    Terminated(name1);
    Terminated(name2);
    var name1Length := Wrap8(Utils.NulIndex(locName1[..]));
    var name2Length := Wrap8(Utils.NulIndex(locName2[..]));
    SameModuleCases(name1, name2);
    if name1Length == name2Length {
      CopyAgrees(name1, locName1[..], name1Length);
      CopyAgrees(name2, locName2[..], name2Length);
      if FileTypeIsValid(locName1[..], name1Length) && FileTypeIsValid(locName2[..], name2Length) {
        RemoveFileExtent(locName1, name1Length);
        RemoveFileExtent(locName2, name2Length);
        result := CStr(locName1[..]) == CStr(locName2[..]);
      } else {
        result := false;
      }
    } else {
      result := false;
    }
  }

  /** The copy of a name into a local buffer of its length plus one, NUL included (UTL_string_copy). */
  method LocalCopy(name: seq<char>) returns (buffer: array<char>)
    requires NoNul(name)
    ensures fresh(buffer) && buffer[..] == name + ['\0']
  {
    buffer := new char[|name| + 1];
    Terminated(name);
    Utils.StringCopy(buffer, name + ['\0']);
    assert buffer[..] == buffer[..|name| + 1];
  }

  /** SameModule case by case, as compare_file_names decides it. */
  lemma SameModuleCases(name1: seq<char>, name2: seq<char>)
    requires Wrap8(|name1|) == Wrap8(|name2|) ==> Wrap8(|name1|) >= 2
    ensures Wrap8(|name1|) != Wrap8(|name2|) ==> !SameModule(name1, name2)
    ensures var len := Wrap8(|name1|) as int;
      Wrap8(|name1|) == Wrap8(|name2|) ==>
        (SameModule(name1, name2) <==>
          FileTypeIsValid(name1, len) && FileTypeIsValid(name2, len) && name1[..len - 2] == name2[..len - 2])
  {
  }

  /** For names shorter than 256 characters: equal lengths, valid extensions, equal stems. */
  lemma SameModuleShortNames(name1: seq<char>, name2: seq<char>)
    requires |name1| < 256 && |name2| < 256 && 2 <= |name1|
    ensures SameModule(name1, name2) <==>
              |name1| == |name2|
              && name1[|name1| - 2..] in [".c", ".C", ".h", ".H"]
              && name2[|name2| - 2..] in [".c", ".C", ".h", ".H"]
              && name1[..|name1| - 2] == name2[..|name2| - 2]
  {
    if |name1| == |name2| {
      assert name1[|name1| - 2..|name1|] == name1[|name1| - 2..];
      assert name2[|name2| - 2..|name2|] == name2[|name2| - 2..];
    }
  }

  /** A source file and its header name the same module. */
  lemma SourceMatchesHeader(stem: seq<char>)
    requires |stem| < 254
    ensures SameModule(stem + ".c", stem + ".h")
  {
    var len := |stem| + 2;
    assert (stem + ".c")[len - 2..len] == ".c";
    assert (stem + ".h")[len - 2..len] == ".h";
    assert (stem + ".c")[..len - 2] == stem == (stem + ".h")[..len - 2];
  }

  /** Two short names with different stems never name the same module. */
  lemma DifferentStems(stem1: seq<char>, stem2: seq<char>, e1: char, e2: char)
    requires |stem1| < 254 && |stem2| < 254 && stem1 != stem2
    ensures !SameModule(stem1 + ['.', e1], stem2 + ['.', e2])
  {
    var n1, n2 := stem1 + ['.', e1], stem2 + ['.', e2];
    if |n1| == |n2| {
      assert n1[..|n1| - 2] == stem1;
      assert n2[..|n2| - 2] == stem2;
    }
  }

  /** The relation is symmetric. */
  lemma SameModuleSymmetric(name1: seq<char>, name2: seq<char>)
    requires Wrap8(|name1|) == Wrap8(|name2|) ==> Wrap8(|name1|) >= 2
    ensures SameModule(name1, name2) == SameModule(name2, name1)
  {
  }

  /**
   * is_token_a_comment: every branch for a token longer than three
   * characters answers true, so the answer depends only on the length.
   */
  function IsTokenAComment(token: seq<char>): (result: bool)
    ensures result <==> |token| > 3
  {
    if |token| > 3 then
      if token[0] == '/' && token[1] == '/' then true
      else if token[0] == '/' && token[1] == '*' then true
      else true
    else false
  }

  /** The number of spaces at the start of `line`. */
  function LeadingSpaces(line: seq<char>): (k: nat)
    ensures k <= |line| && (k == |line| || line[k] != ' ')
    ensures forall i :: 0 <= i < k ==> line[i] == ' '
  {
    if line == [] || line[0] != ' ' then 0 else LeadingSpaces(line[1..]) + 1
  }

  /** strtok's first token: the first run of characters other than the delimiter ' '. */
  function FirstToken(line: seq<char>): (token: seq<char>)
    ensures ' ' !in token && OccursAt(line, token, LeadingSpaces(line))
    ensures token == [] <==> LeadingSpaces(line) == |line|
  {
    var k := LeadingSpaces(line);
    var w := Word(line[k..]);
    assert line[k..k + |w|] == w;
    w
  }

  /** The characters of `line` up to its first ' '. */
  function Word(line: seq<char>): (w: seq<char>)
    ensures ' ' !in w && |w| <= |line| && w == line[..|w|]
    ensures |w| == |line| || line[|w|] == ' '
  {
    if line == [] || line[0] == ' ' then [] else [line[0]] + Word(line[1..])
  }

  /**
   * line_valid: a line of more than one character is worth parsing. The
   * first token is taken and tested for a comment, but the verdict is set to
   * true afterwards whatever the test found.
   */
  method LineValid(line: seq<char>) returns (valid: bool)
    requires NoNul(line)
    ensures valid <==> |line| > 1
  {
    if |line| > 1 {
      var token := FirstToken(line);
      if token != [] && IsTokenAComment(token) {
        valid := false;
      }
      valid := true;
    } else {
      valid := false;
    }
  }

  /** Where strstr finds `needle` in `haystack`, if anywhere. */
  datatype Found = NotFound | FoundAt(index: nat)

  /** strstr: the first position at or after `from` where `needle` occurs. */
  function StrStr(haystack: seq<char>, needle: seq<char>, from: nat): (r: Found)
    requires from <= |haystack|
    ensures r.FoundAt? ==> from <= r.index && OccursAt(haystack, needle, r.index)
                           && forall i :: from <= i < r.index ==> !OccursAt(haystack, needle, i)
    ensures r.NotFound? ==> forall i :: from <= i <= |haystack| ==> !OccursAt(haystack, needle, i)
    decreases |haystack| - from
  {
    if OccursAt(haystack, needle, from) then FoundAt(from)
    else if from == |haystack| then NotFound
    else StrStr(haystack, needle, from + 1)
  }

  /** `needle` is a substring of `haystack`. */
  predicate Contains(haystack: seq<char>, needle: seq<char>)
  {
    exists i :: 0 <= i <= |haystack| && OccursAt(haystack, needle, i)
  }

  /** strstr finds the needle exactly when it is a substring. */
  lemma StrStrFinds(haystack: seq<char>, needle: seq<char>)
    ensures StrStr(haystack, needle, 0).FoundAt? <==> Contains(haystack, needle)
  {
    var r := StrStr(haystack, needle, 0);
    if r.FoundAt? {
      assert OccursAt(haystack, needle, r.index);
    }
  }

  /**
   * parse_line: for a valid line, skips the leading spaces (the position is
   * not used afterwards) and reports whether strstr finds the function name.
   */
  method ParseLine(line: seq<char>, functionName: seq<char>) returns (result: bool)
    requires NoNul(line) && NoNul(functionName)
    ensures result <==> |line| > 1 && Contains(line, functionName)
  {
    var valid := LineValid(line);
    if valid {
      var position := 0;
      while position < |line| && line[position] == ' '
        invariant position <= |line|
        decreases |line| - position
      {
        position := position + 1;
      }
      StrStrFinds(line, functionName);
      result := StrStr(line, functionName, 0).FoundAt?;
    } else {
      result := false;
    }
  }

  /** strstr finds a function name wherever the line mentions it. */
  lemma MentionedFunctionFound(before: seq<char>, functionName: seq<char>, after: seq<char>)
    ensures StrStr(before + functionName + after, functionName, 0).FoundAt?
  {
    var line := before + functionName + after;
    assert line[|before|..|before| + |functionName|] == functionName;
    assert OccursAt(line, functionName, |before|);
    StrStrFinds(line, functionName);
  }
}
