/**
 * Method-name synthesis: a generated method is called after its action
 * and the last `/`-separated segment of its resource, capitalised
 * (`list` + `playlistItems` gives `listPlaylistItems`).
 */
module MethodNames {
  import opened JsValues

  /** `resource.split('/').pop()`. */
  function LastSegment(resource: string): string {
    var parts := Split(resource, '/');
    parts[|parts| - 1]
  }

  /** `toUpperCase` on one character, for the ASCII letters. */
  function UpperChar(c: char): (u: char)
    ensures 'a' <= c <= 'z' ==> 'A' <= u <= 'Z' && u as int == c as int - 32
    ensures !('a' <= c <= 'z') ==> u == c
  {
    if 'a' <= c <= 'z' then (c as int - 32) as char else c
  }

  /** `s.charAt(0).toUpperCase() + s.slice(1)`: `charAt(0)` of the empty
      string is the empty string. */
  function Capitalize(s: string): string {
    if s == [] then [] else [UpperChar(s[0])] + s[1..]
  }

  function MethodName(action: string, resource: string): string {
    action + Capitalize(LastSegment(resource))
  }

  /** Appending one character to a resource either starts a new, empty
      last segment (a `/`) or extends the last segment. */
  lemma LastSegmentSnoc(s: string, c: char)
    ensures LastSegment(s + [c]) == if c == '/' then "" else LastSegment(s) + [c]
  {
    assert (s + [c])[..|s|] == s;
  }

  /** The last segment is the longest suffix of the resource without a
      `/`: it is a suffix, it holds no `/`, and it is either the whole
      resource or preceded by a `/`. */
  lemma {:induction false} LastSegmentIsMaximalSuffix(resource: string)
    ensures var seg := LastSegment(resource);
      && |seg| <= |resource|
      && seg == resource[|resource| - |seg|..]
      && '/' !in seg
      && (|seg| == |resource| || resource[|resource| - |seg| - 1] == '/')
  {
    var parts := Split(resource, '/');
    assert '/' !in parts[|parts| - 1];
    if resource != [] {
      var init := resource[..|resource| - 1];
      var c := resource[|resource| - 1];
      assert resource == init + [c];
      LastSegmentSnoc(init, c);
      if c != '/' {
        LastSegmentIsMaximalSuffix(init);
      }
    }
  }

  /** A resource without a `/` is its own last segment. */
  lemma {:induction false} LastSegmentOfPlainName(r: string)
    requires '/' !in r
    ensures LastSegment(r) == r
  {
    if r != [] {
      var init := r[..|r| - 1];
      assert r == init + [r[|r| - 1]];
      LastSegmentSnoc(init, r[|r| - 1]);
      LastSegmentOfPlainName(init);
    }
  }

  /** Earlier segments never affect the last one. */
  lemma {:induction false} LastSegmentAfterSlash(prefix: string, r: string)
    ensures LastSegment(prefix + "/" + r) == LastSegment(r)
  {
    if r == [] {
      assert prefix + "/" + r == prefix + ['/'];
      LastSegmentSnoc(prefix, '/');
    } else {
      var init := r[..|r| - 1];
      var c := r[|r| - 1];
      assert r == init + [c];
      assert prefix + "/" + r == (prefix + "/" + init) + [c];
      LastSegmentSnoc(prefix + "/" + init, c);
      LastSegmentSnoc(init, c);
      LastSegmentAfterSlash(prefix, init);
    }
  }

  /** A method name is the action followed by the resource's last segment
      with only its first character upper-cased. */
  lemma MethodNameShape(action: string, resource: string)
    ensures var name := MethodName(action, resource);
      var seg := LastSegment(resource);
      && |name| == |action| + |seg|
      && name[..|action|] == action
      && name[|action|..] == Capitalize(seg)
      && (seg != [] ==> name[|action|] == UpperChar(seg[0]) && name[|action| + 1..] == seg[1..])
      && '/' !in name[|action|..]
  {
    var seg := LastSegment(resource);
    LastSegmentIsMaximalSuffix(resource);
    var name := MethodName(action, resource);
    assert name == action + Capitalize(seg);
    if seg != [] {
      assert UpperChar(seg[0]) != '/';
      assert Capitalize(seg) == [UpperChar(seg[0])] + seg[1..];
      assert forall i :: 1 <= i < |seg| ==> Capitalize(seg)[i] == seg[i];
    }
  }

  /** A resource with a path prefix such as `users/me/` names its methods
      exactly as its last segment alone would. */
  lemma MethodNameIgnoresPathPrefix(action: string, prefix: string, r: string)
    ensures MethodName(action, prefix + "/" + r) == MethodName(action, r)
  {
    LastSegmentAfterSlash(prefix, r);
  }

  /** A resource with a path prefix is named after the leaf as written. */
  lemma MethodNameOfPath(action: string, prefix: string, leaf: string)
    requires '/' !in leaf
    ensures MethodName(action, prefix + "/" + leaf) == action + Capitalize(leaf)
  {
    LastSegmentAfterSlash(prefix, leaf);
    LastSegmentOfPlainName(leaf);
  }
}
