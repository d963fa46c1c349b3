/** Families of samples by name, as values: joining them keeps every sample. */
module Families {
  function Joined<T>(d: map<string, seq<T>>, s: map<string, seq<T>>): map<string, seq<T>> {
    map n | n in d.Keys + s.Keys :: (if n in d then d[n] else []) + (if n in s then s[n] else [])
  }

  /** The samples under a name. */
  function Under<T>(m: map<string, seq<T>>, name: string): seq<T> {
    if name in m then m[name] else []
  }

  function Part<T>(m: map<string, T>, names: set<string>): map<string, T> {
    map n | n in m && n in names :: m[n]
  }

  lemma JoinedOneMore<T>(d: map<string, seq<T>>, s: map<string, seq<T>>, done: set<string>, name: string)
    requires name in s && name !in done
    ensures Joined(d, Part(s, done + {name}))
      == Joined(d, Part(s, done))[name := (if name in d then d[name] else []) + s[name]]
    ensures name in d ==> Joined(d, Part(s, done))[name] == d[name]
  {
    var j, k := Joined(d, Part(s, done)), Joined(d, Part(s, done + {name}));
    assert name in d ==> d[name] + [] == d[name];
    assert k.Keys == j.Keys + {name};
  }

  lemma JoinedNothing<T>(d: map<string, seq<T>>, s: map<string, seq<T>>)
    ensures Joined(d, Part(s, {})) == d && Part(s, s.Keys) == s
  {
    assert forall n :: n in d ==> d[n] + [] == d[n];
  }
}
