/** The bot NPCs' names, joined by semicolons and sent to a client in messages of limited size. */
module NameList {
  import opened Semicolons

  const CHUNK := 180

  /** Without an empty field at the end. */
  function Trim(fields: seq<string>): seq<string>
    requires fields != []
  {
    if fields[|fields| - 1] == "" then fields[..|fields| - 1] else fields
  }

  /** The names a list is read as. */
  function Names(list: string): seq<string>
  {
    Trim(Split(list))
  }

  /** Whether a body is sent rather than grow by one more name. */
  predicate IsClosed(chunk: string, name: string)
  {
    chunk != "" && |chunk| + 1 + |name| > CHUNK
  }

  function Grown(chunk: string, name: string): string
  {
    if chunk == "" then name else chunk + ";" + name
  }

  /** The bodies that follow when a body has been begun. */
  function Bodies(names: seq<string>, chunk: string): seq<string>
    decreases |names|
  {
    if names == [] then if chunk == "" then [] else [chunk]
    else if IsClosed(chunk, names[0]) then [chunk] + Bodies(names[1..], names[0])
    else Bodies(names[1..], Grown(chunk, names[0]))
  }

  function Messages(bodies: seq<string>): seq<string>
  {
    if bodies == [] then [] else ["O " + bodies[0]] + Messages(bodies[1..])
  }

  lemma TrimRest(f: string, rest: seq<string>)
    requires rest != []
    ensures Trim([f] + rest) == [f] + Trim(rest)
  {
  }

  lemma NextName(list: string)
    requires list != ""
    ensures var at := IndexOf(list, ';');
            Names(list) == [list[..at]] + Names(if at == |list| then "" else list[at + 1..])
  {
    var at := IndexOf(list, ';');
    if at == |list| {
      assert list[..at] == list && Split(list) == [list];
      assert Split("") == [""] && [""][..0] == [];
    } else {
      SplitAt(list, at);
      TrimRest(list[..at], Split(list[at + 1..]));
      hide Split, Trim;
    }
  }

  /** What has been sent and what is still to come of a body begun and the names left. */
  function InAll(sent: seq<string>, names: seq<string>, chunk: string): seq<string>
  {
    sent + Messages(Bodies(names, chunk))
  }

  lemma NextBody(sent: seq<string>, name: string, rest: seq<string>, chunk: string)
    ensures InAll(sent, [name] + rest, chunk)
            == if IsClosed(chunk, name) then InAll(sent + ["O " + chunk], rest, Grown("", name))
               else InAll(sent, rest, Grown(chunk, name))
  {
    assert ([name] + rest)[1..] == rest;
    if IsClosed(chunk, name) {
      var later := Bodies(rest, name);
      assert ([chunk] + later)[1..] == later;
      hide Bodies, Messages;
      Regroup(sent, ["O " + chunk], Messages(later));
    }
  }

  lemma Regroup(a: seq<string>, b: seq<string>, c: seq<string>)
    ensures a + (b + c) == a + b + c
  {
  }

  method SendNameList(names: string) returns (sent: seq<string>)
    ensures sent == ["H"] + Messages(Bodies(Names(names), "")) + ["E"]
  {
    hide Names, InAll, Split, Bodies, Messages, IsClosed, Grown;
    sent := ["H"];
    var chunk := "";
    var rest := names;
    while rest != ""
      invariant InAll(sent, Names(rest), chunk) == InAll(["H"], Names(names), "")
      decreases |rest|
    {
      NextName(rest);
      var end := IndexOf(rest, ';');
      var name := rest[..end];
      rest := if end == |rest| then "" else rest[end + 1..];
      NextBody(sent, name, Names(rest), chunk);
      if IsClosed(chunk, name) {
        sent := sent + ["O " + chunk];
        chunk := "";
      }
      chunk := Grown(chunk, name);
    }
    LastBody(sent, chunk);
    AllOf(["H"], Names(names));
    if chunk != "" {
      sent := sent + ["O " + chunk];
    }
    sent := sent + ["E"];
  }

  lemma AllOf(sent: seq<string>, names: seq<string>)
    ensures InAll(sent, names, "") == sent + Messages(Bodies(names, ""))
  {
  }

  lemma LastBody(sent: seq<string>, chunk: string)
    ensures InAll(sent, Names(""), chunk) == if chunk == "" then sent else sent + ["O " + chunk]
  {
    assert Split("") == [""] && Names("") == [];
    assert [chunk][1..] == [] && sent + [] == sent;
    assert Messages([chunk]) == ["O " + chunk];
  }

  /** One list of names: the set's members in order. */
  method BuildNameList(names: seq<string>) returns (list: string)
    requires forall n :: n in names ==> n != ""
    ensures list == if names == [] then "" else Join(names)
  {
    list := "";
    for i := 0 to |names|
      invariant list == if i == 0 then "" else Join(names[..i])
      invariant i > 0 ==> list != ""
    {
      assert names[i] in names && names[..i + 1] == names[..i] + [names[i]];
      if i > 0 {
        JoinOneMore(names[..i], names[i]);
      }
      if list != "" {
        list := list + ";";
      }
      list := list + names[i];
    }
    assert names[..|names|] == names;
  }

  lemma {:induction false} JoinOneMore(names: seq<string>, name: string)
    requires names != []
    ensures Join(names + [name]) == Join(names) + ";" + name
    decreases |names|
  {
    if |names| == 1 {
      assert (names + [name])[1..] == [name];
    } else {
      JoinOneMore(names[1..], name);
      assert (names + [name])[1..] == names[1..] + [name];
    }
  }

  // ----- What a client gets -----

  predicate Proper(names: seq<string>)
  {
    forall n :: n in names ==> n != "" && ';' !in n
  }

  /** A list made of names is read as these names. */
  lemma NamesOfList(names: seq<string>)
    requires Proper(names)
    ensures Names(if names == [] then "" else Join(names)) == names
  {
    if names != [] {
      JoinIsExact(names);
      assert names[|names| - 1] in names;
    }
  }

  /** The names of all bodies, put one after the other. */
  function AllNames(bodies: seq<string>): seq<string>
  {
    if bodies == [] then [] else Split(bodies[0]) + AllNames(bodies[1..])
  }

  function Begun(chunk: string): seq<string>
  {
    if chunk == "" then [] else Split(chunk)
  }

  lemma {:induction false} SplitOneMore(chunk: string, name: string)
    requires ';' !in name
    ensures Split(chunk + ";" + name) == Split(chunk) + [name]
    decreases |chunk|
  {
    var s := chunk + ";" + name;
    var at := IndexOf(chunk, ';');
    var tail := if at == |chunk| then name else chunk[at + 1..] + ";" + name;
    IndexOfFirst(chunk[..at], ';', tail);
    assert chunk[..at] + [';'] + tail == s;
    assert s[..at] == chunk[..at] && s[at + 1..] == tail;
    if at < |chunk| {
      SplitOneMore(chunk[at + 1..], name);
      assert Split(s) == [chunk[..at]] + (Split(chunk[at + 1..]) + [name]);
      Regroup([chunk[..at]], Split(chunk[at + 1..]), [name]);
    } else {
      NoSemicolon(name);
      assert chunk[..at] == chunk && IndexOf(s, ';') == at;
      assert Split(s) == [chunk] + Split(name);
    }
  }

  lemma {:induction false} IndexOfAbsent(s: string, c: char)
    requires c !in s
    ensures IndexOf(s, c) == |s|
  {
    if s != [] {
      IndexOfAbsent(s[1..], c);
    }
  }

  lemma NoSemicolon(name: string)
    requires ';' !in name
    ensures Split(name) == [name]
  {
    IndexOfAbsent(name, ';');
  }

  lemma ProperRest(names: seq<string>)
    requires Proper(names) && names != []
    ensures names[0] != "" && ';' !in names[0] && Proper(names[1..]) && names == [names[0]] + names[1..]
  {
    assert names[0] in names;
    assert forall n :: n in names[1..] ==> n in names;
  }

  /** No name is lost, doubled, moved or cut in two. */
  lemma {:induction false} EveryNameArrives(names: seq<string>, chunk: string)
    requires Proper(names)
    ensures AllNames(Bodies(names, chunk)) == Begun(chunk) + names
    decreases |names|
  {
    if names == [] {
      if chunk != "" {
        assert AllNames([chunk]) == Split(chunk) + AllNames([chunk][1..]);
      }
    } else {
      var name, rest := names[0], names[1..];
      ProperRest(names);
      NoSemicolon(name);
      if IsClosed(chunk, name) {
        var later := Bodies(rest, name);
        EveryNameArrives(rest, name);
        assert ([chunk] + later)[1..] == later;
      } else if chunk == "" {
        EveryNameArrives(rest, name);
      } else {
        EveryNameArrives(rest, chunk + ";" + name);
        SplitOneMore(chunk, name);
        Regroup(Split(chunk), [name], rest);
      }
    }
  }

  /** A body fits a message, unless it is a single name that does not. */
  predicate FitsOrIsOne(body: string)
  {
    |body| <= 180 || ';' !in body
  }

  lemma {:induction false} BodiesFit(names: seq<string>, chunk: string)
    requires Proper(names) && FitsOrIsOne(chunk)
    ensures forall b :: b in Bodies(names, chunk) ==> b != "" && FitsOrIsOne(b)
    decreases |names|
  {
    if names != [] {
      ProperRest(names);
      if IsClosed(chunk, names[0]) {
        BodiesFit(names[1..], names[0]);
      } else {
        BodiesFit(names[1..], Grown(chunk, names[0]));
      }
    }
  }

  /** A message is only closed when the next name would not have fitted. */
  predicate Full(bodies: seq<string>)
  {
    forall i :: 0 <= i < |bodies| - 1 ==> |bodies[i]| + 1 + |Split(bodies[i + 1])[0]| > 180
  }

  lemma {:induction false} BodiesAreFull(names: seq<string>, chunk: string)
    requires Proper(names)
    ensures Full(Bodies(names, chunk))
    ensures chunk != "" ==> Bodies(names, chunk) != [] && Split(Bodies(names, chunk)[0])[0] == Split(chunk)[0]
    decreases |names|
  {
    if names != [] {
      var name, rest := names[0], names[1..];
      ProperRest(names);
      NoSemicolon(name);
      if IsClosed(chunk, name) {
        BodiesAreFull(rest, name);
        var later := Bodies(rest, name);
        assert Bodies(names, chunk) == [chunk] + later;
      } else if chunk == "" {
        BodiesAreFull(rest, name);
      } else {
        BodiesAreFull(rest, chunk + ";" + name);
        SplitOneMore(chunk, name);
        assert Split(chunk) + [name] == Split(chunk + ";" + name);
      }
    }
  }

  lemma {:induction false} MessagesAre(bodies: seq<string>)
    ensures |Messages(bodies)| == |bodies| && forall i :: 0 <= i < |bodies| ==> Messages(bodies)[i] == "O " + bodies[i]
  {
    if bodies != [] {
      MessagesAre(bodies[1..]);
    }
  }

  /** From the names to the messages and back: they arrive in order and whole, in messages that fit and waste no room. */
  lemma NamesArrive(names: seq<string>)
    requires Proper(names)
    ensures var bodies := Bodies(Names(if names == [] then "" else Join(names)), "");
            && AllNames(bodies) == names
            && (forall b :: b in bodies ==> b != "" && FitsOrIsOne(b))
            && Full(bodies)
            && |Messages(bodies)| == |bodies| && forall i :: 0 <= i < |bodies| ==> Messages(bodies)[i] == "O " + bodies[i]
  {
    MessagesAre(Bodies(Names(if names == [] then "" else Join(names)), ""));
    NamesOfList(names);
    EveryNameArrives(names, "");
    BodiesFit(names, "");
    BodiesAreFull(names, "");
  }
}
