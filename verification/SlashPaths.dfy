/** Slash-separated relative paths: Go's strings.Split, strings.TrimPrefix and filepath.Clean
    as far as the walks need them. */
module SlashPaths {
  /** A name a directory entry can have. */
  predicate Name(s: string) {
    s != [] && '/' !in s && s != "." && s != ".."
  }

  predicate Names(parts: seq<string>) {
    forall i :: 0 <= i < |parts| ==> Name(parts[i])
  }

  function JoinPath(parts: seq<string>): string {
    if parts == [] then []
    else if |parts| == 1 then parts[0]
    else parts[0] + "/" + JoinPath(parts[1..])
  }

  /** `strings.Split(s, "/")`: `head` is the part read so far. */
  function SplitFrom(head: string, s: string): seq<string>
    decreases s
  {
    if s == [] then [head]
    else if s[0] == '/' then [head] + SplitFrom([], s[1..])
    else SplitFrom(head + [s[0]], s[1..])
  }

  function SplitPath(s: string): seq<string> {
    SplitFrom([], s)
  }

  lemma {:induction false} SplitFromName(head: string, name: string, s: string)
    requires '/' !in name
    ensures SplitFrom(head, name + s) == SplitFrom(head + name, s)
    decreases name
  {
    if name == [] {
      assert name + s == s && head + name == head;
    } else {
      assert (name + s)[1..] == name[1..] + s;
      SplitFromName(head + [name[0]], name[1..], s);
      assert head + [name[0]] + name[1..] == head + name;
    }
  }

  /** Splitting a joined path gives its parts back. */
  lemma {:induction false} SplitJoin(parts: seq<string>)
    requires parts != [] && Names(parts)
    ensures SplitPath(JoinPath(parts)) == parts
  {
    assert Name(parts[0]);
    if |parts| == 1 {
      assert parts[0] + [] == parts[0];
      SplitFromName([], parts[0], []);
      assert [] + parts[0] == parts[0];
    } else {
      var rest := "/" + JoinPath(parts[1..]);
      assert JoinPath(parts) == parts[0] + rest;
      SplitFromName([], parts[0], rest);
      assert [] + parts[0] == parts[0] && rest[1..] == JoinPath(parts[1..]);
      SplitJoin(parts[1..]);
    }
  }

  /** `filepath.Clean` on the parts of a relative path: empty parts and dots vanish, a double
      dot removes the part before it. */
  function CleanParts(done: seq<string>, parts: seq<string>): seq<string>
    decreases parts
  {
    if parts == [] then done
    else if parts[0] == [] || parts[0] == "." then CleanParts(done, parts[1..])
    else if parts[0] == ".." && done != [] && done[|done| - 1] != ".." then CleanParts(done[..|done| - 1], parts[1..])
    else CleanParts(done + [parts[0]], parts[1..])
  }

  lemma {:induction false} CleanNames(done: seq<string>, parts: seq<string>)
    requires Names(parts)
    ensures CleanParts(done, parts) == done + parts
    decreases parts
  {
    if parts == [] {
      assert done + [] == done;
    } else {
      assert Name(parts[0]);
      CleanNames(done + [parts[0]], parts[1..]);
      assert done + [parts[0]] + parts[1..] == done + parts;
    }
  }

  /** `filepath.Join(".", path)`. */
  function JoinDot(path: string): string {
    var parts := CleanParts([], SplitPath("./" + path));
    if parts == [] then "." else JoinPath(parts)
  }

  function TrimPrefix(s: string, prefix: string): string {
    if prefix <= s then s[|prefix|..] else s
  }
}
