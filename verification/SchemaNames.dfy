/** Parameter names: validity, renaming, and the order in which a large tool's properties are kept. */
module SchemaNames {

  const MAX_PARAM_NAME_LENGTH := 64

  predicate NameChar(c: char) {
    'a' <= c <= 'z' || 'A' <= c <= 'Z' || '0' <= c <= '9' || c == '_' || c == '.' || c == '-'
  }

  /** The pattern `^[a-zA-Z0-9_.-]{1,64}$`. */
  predicate ValidName(name: string) {
    1 <= |name| <= MAX_PARAM_NAME_LENGTH && forall i :: 0 <= i < |name| ==> NameChar(name[i])
  }

  /** The characters of `name` that may stay, in order. */
  function Kept(name: string): (r: string)
    ensures forall i :: 0 <= i < |r| ==> NameChar(r[i])
    ensures |r| <= |name|
  {
    if name == "" then ""
    else if NameChar(name[|name| - 1]) then Kept(name[..|name| - 1]) + [name[|name| - 1]]
    else Kept(name[..|name| - 1])
  }

  function Capped(s: string): string {
    if |s| <= MAX_PARAM_NAME_LENGTH then s else s[..MAX_PARAM_NAME_LENGTH]
  }

  function Transformed(name: string): string {
    if Kept(name) == "" then "param" else Capped(Kept(name))
  }

  /** The name under which a property called `name` is emitted. */
  function Rename(name: string): string {
    if ValidName(name) then name else Transformed(name)
  }

  lemma {:induction false} KeptIsIdentity(name: string)
    requires forall i :: 0 <= i < |name| ==> NameChar(name[i])
    ensures Kept(name) == name
  {
    if name != "" {
      KeptIsIdentity(name[..|name| - 1]);
      assert name == name[..|name| - 1] + [name[|name| - 1]];
    }
  }

  lemma ParamIsValid()
    ensures ValidName("param")
  {
    assert forall i :: 0 <= i < |"param"| ==> NameChar("param"[i]);
  }

  /** Renaming always ends in a valid name, keeps valid names, and renaming twice is renaming once;
      the rewriting rule itself agrees with all three. */
  lemma RenameIsSound(name: string)
    ensures ValidName(Rename(name)) && ValidName(Transformed(name))
    ensures ValidName(name) ==> Rename(name) == name == Transformed(name)
    ensures Rename(Rename(name)) == Rename(name)
  {
    ParamIsValid();
    if ValidName(name) {
      KeptIsIdentity(name);
    }
  }

  /** Builds the replacement name one character at a time, never past the limit, which is why the
      source's cut at the end never applies. */
  method TransformParamName(name: string) returns (result: string)
    ensures result == Transformed(name)
    ensures ValidName(result)
  {
    result := "";
    var i := 0;
    while i < |name|
      invariant 0 <= i <= |name|
      invariant result == Capped(Kept(name[..i]))
    {
      assert name[..i + 1][..i] == name[..i];
      if NameChar(name[i]) {
        assert Kept(name[..i + 1]) == Kept(name[..i]) + [name[i]];
        if |result| < MAX_PARAM_NAME_LENGTH {
          result := result + [name[i]];
        }
      }
      i := i + 1;
    }
    assert name[..i] == name;
    if result == "" {
      result := "param";
    }
    RenameIsSound(name);
  }

  /** The names that emitted properties carry. */
  function RenamedKeys(keys: set<string>): set<string> {
    set key | key in keys :: Rename(key)
  }

  lemma RenamedKeysAdd(keys: set<string>, key: string)
    ensures RenamedKeys(keys + {key}) == RenamedKeys(keys) + {Rename(key)}
  {}

  lemma RenamedKeysAreValid(keys: set<string>)
    ensures forall name | name in RenamedKeys(keys) :: ValidName(name)
  {
    forall key | key in keys ensures ValidName(Rename(key)) {
      RenameIsSound(key);
    }
  }

  /** Keeps a valid name and rewrites any other, as every caller in the source does inline. */
  method EmittedName(name: string) returns (validName: string)
    ensures validName == Rename(name) && ValidName(validName)
  {
    validName := name;
    if !ValidName(name) {
      validName := TransformParamName(name);
    }
  }

  /** Dictionary order, as `sort.Strings` uses it. */
  predicate Before(a: string, b: string) {
    if b == "" then false
    else if a == "" then true
    else a[0] < b[0] || (a[0] == b[0] && Before(a[1..], b[1..]))
  }

  lemma {:induction false} BeforeIsTotal(a: string, b: string)
    ensures a == b || Before(a, b) || Before(b, a)
    ensures Before(a, b) ==> a != b && !Before(b, a)
  {
    if a != "" && b != "" && a[0] == b[0] {
      BeforeIsTotal(a[1..], b[1..]);
      assert a == [a[0]] + a[1..] && b == [b[0]] + b[1..];
    }
  }

  lemma {:induction false} BeforeIsTransitive(a: string, b: string, c: string)
    requires Before(a, b) && Before(b, c)
    ensures Before(a, c)
  {
    if a != "" && a[0] == b[0] == c[0] {
      BeforeIsTransitive(a[1..], b[1..], c[1..]);
    }
  }

  predicate IsLeast(k: string, keys: set<string>) {
    k in keys && forall other | other in keys :: other == k || Before(k, other)
  }

  lemma {:induction false} LeastExists(keys: set<string>)
    requires keys != {}
    ensures exists k :: IsLeast(k, keys)
  {
    var any :| any in keys;
    if keys == {any} {
      assert IsLeast(any, keys);
    } else {
      LeastExists(keys - {any});
      var m :| IsLeast(m, keys - {any});
      BeforeIsTotal(any, m);
      if Before(any, m) {
        forall other | other in keys ensures other == any || Before(any, other) {
          if other != any && other != m {
            BeforeIsTransitive(any, m, other);
          }
        }
        assert IsLeast(any, keys);
      } else {
        assert IsLeast(m, keys);
      }
    }
  }

  /** The keys in dictionary order. */
  ghost function SortedKeys(keys: set<string>): (r: seq<string>)
    ensures |r| == |keys|
    ensures forall i :: 0 <= i < |r| ==> r[i] in keys
  {
    if keys == {} then [] else
      LeastExists(keys);
      var least :| IsLeast(least, keys);
      [least] + SortedKeys(keys - {least})
  }

  lemma LeastIsUnique(a: string, b: string, keys: set<string>)
    requires IsLeast(a, keys) && IsLeast(b, keys)
    ensures a == b
  {
    BeforeIsTotal(a, b);
  }

  lemma SortedKeysUnfold(keys: set<string>)
    requires keys != {}
    ensures IsLeast(SortedKeys(keys)[0], keys)
    ensures SortedKeys(keys) == [SortedKeys(keys)[0]] + SortedKeys(keys - {SortedKeys(keys)[0]})
  {
    LeastExists(keys);
  }

  predicate Increasing(s: seq<string>) {
    forall i, j :: 0 <= i < j < |s| ==> Before(s[i], s[j])
  }

  lemma PrependKeepsIncreasing(least: string, s: seq<string>)
    requires Increasing(s) && forall i :: 0 <= i < |s| ==> Before(least, s[i])
    ensures Increasing([least] + s)
  {}

  /** `SortedKeys` is strictly increasing and lists every key. */
  lemma {:induction false} SortedKeysAreSorted(keys: set<string>)
    ensures Increasing(SortedKeys(keys))
    ensures forall key | key in keys :: key in SortedKeys(keys)
  {
    if keys != {} {
      var least, rest := SortedKeys(keys)[0], keys - {SortedKeys(keys)[0]};
      SortedKeysUnfold(keys);
      SortedKeysAreSorted(rest);
      PrependKeepsIncreasing(least, SortedKeys(rest));
    }
  }

  /** Collects the keys and sorts them. */
  method SortKeys(keys: set<string>) returns (sorted: seq<string>)
    ensures sorted == SortedKeys(keys)
  {
    sorted := [];
    var todo := keys;
    while todo != {}
      invariant todo <= keys
      invariant SortedKeys(keys) == sorted + SortedKeys(todo)
      decreases todo
    {
      LeastExists(todo);
      var least :| least in todo && IsLeast(least, todo);
      SortedKeysUnfold(todo);
      LeastIsUnique(least, SortedKeys(todo)[0], todo);
      sorted := sorted + [least];
      todo := todo - {least};
    }
  }
}
