// Cancellation tokens over whole runs: which of them the loop still knows, and which of these
// are left over from actions that are gone.
module Tokens {
  import opened Prelude
  import opened Registry

  /* An account of the calls. */

  // A token that was issued and by which nothing was deregistered since: its action is
  // registered, or it was removed by others.
  datatype Mark = Live(key: FdDirection) | Left(key: FdDirection)

  // A token taken back; its direction has no action any more, whoever registered it.
  function Released(marks: map<Token, Mark>, token: Token): map<Token, Mark>
  {
    if token !in marks then marks
    else map o | o in marks && o != token :: if marks[o] == Live(marks[token].key) then Left(marks[token].key) else marks[o]
  }

  function Abandoned(marks: map<Token, Mark>, fd: Fd): map<Token, Mark>
  {
    map o | o in marks :: if marks[o].key.fd == fd then Left(marks[o].key) else marks[o]
  }

  // issued: the token a registration gave out, if it did.
  function MarksAfter(marks: map<Token, Mark>, c: Call, issued: Option<Token>): map<Token, Mark>
  {
    match c
    case RegisterCall(fd, dir, _, _) => if issued.Some? then marks[issued.value := Live(FdDirection(fd, dir))] else marks
    case DeregisterActionCall(token) => Released(marks, token)
    case DeregisterFdCall(fd) => Abandoned(marks, fd)
    case _ => marks
  }

  function IssuedBy(t: Tables, c: Call): Option<Token>
  {
    if c.RegisterCall? && Register(t, c.fd, c.dir, c.self, c.keepLink).1 then Some(t.nextToken) else None
  }

  function MarksOf(t: Tables, calls: seq<Call>, marks: map<Token, Mark>): map<Token, Mark>
    decreases |calls|
  {
    if calls == [] then marks
    else MarksOf(Apply(t, calls[0]), calls[1..], MarksAfter(marks, calls[0], IssuedBy(t, calls[0])))
  }

  /* The tables keep this account. */

  // The tokens known are those marked, each for its direction, and every registered action has
  // exactly one live token.
  ghost predicate Accounted(t: Tables, marks: map<Token, Mark>)
  {
    && (forall token :: token in t.cancelMap <==> token in marks)
    && (forall token :: token in marks ==> t.cancelMap[token] == marks[token].key)
    && (forall token :: token in marks && marks[token].Live? ==> marks[token].key in t.fdToCallback)
    && (forall key :: key in t.fdToCallback ==> HasLive(marks, key))
    && (forall a, b :: a in marks && b in marks && marks[a].Live? && marks[a] == marks[b] ==> a == b)
  }

  ghost predicate HasLive(marks: map<Token, Mark>, key: FdDirection)
  {
    exists token :: token in marks && marks[token] == Live(key)
  }

  lemma RegisterKeepsAccount(t: Tables, c: Call, marks: map<Token, Mark>)
    requires TokensCover(t) && Accounted(t, marks) && c.RegisterCall?
    ensures Accounted(Apply(t, c), MarksAfter(marks, c, IssuedBy(t, c)))
  {
    var u, after := Apply(t, c), MarksAfter(marks, c, IssuedBy(t, c));
    forall key | key in u.fdToCallback ensures HasLive(after, key) {
      if key in t.fdToCallback {
        var token :| token in marks && marks[token] == Live(key);
        assert after[token] == Live(key);
      } else {
        assert after[t.nextToken] == Live(key);
      }
    }
  }

  lemma DeregisterKeepsAccount(t: Tables, token: Token, marks: map<Token, Mark>)
    requires Accounted(t, marks)
    ensures Accounted(DeregisterAction(t, token).0, Released(marks, token))
  {
    TokenForgotten(t, token);
    ReleasedAccounts(t, DeregisterAction(t, token).0, token, marks);
  }

  lemma ReleasedAccounts(t: Tables, u: Tables, token: Token, marks: map<Token, Mark>)
    requires Accounted(t, marks) && token !in u.cancelMap
    requires forall o :: o != token ==> (o in u.cancelMap <==> o in t.cancelMap)
    requires forall o :: o in u.cancelMap ==> u.cancelMap[o] == t.cancelMap[o]
    requires forall key :: key in u.fdToCallback <==>
               key in t.fdToCallback && !(token in t.cancelMap && t.cancelMap[token] == key)
    ensures Accounted(u, Released(marks, token))
  {
    var after := Released(marks, token);
    forall key | key in u.fdToCallback ensures HasLive(after, key) {
      StaysLive(marks, token, key);
    }
  }

  lemma StaysLive(marks: map<Token, Mark>, token: Token, key: FdDirection)
    requires HasLive(marks, key) && (token in marks ==> marks[token].key != key)
    ensures HasLive(Released(marks, token), key)
  {
    var o :| o in marks && marks[o] == Live(key);
    assert Released(marks, token)[o] == Live(key);
  }

  lemma DeregisterFdKeepsAccount(t: Tables, fd: Fd, marks: map<Token, Mark>)
    requires Accounted(t, marks)
    ensures Accounted(DeregisterFd(t, fd), Abandoned(marks, fd))
  {
    DeregisterFdDrops(t, fd);
    var u, after := DeregisterFd(t, fd), Abandoned(marks, fd);
    forall key | key in u.fdToCallback ensures HasLive(after, key) {
      var o :| o in marks && marks[o] == Live(key);
      assert after[o] == Live(key);
    }
  }

  lemma CallKeepsAccount(t: Tables, c: Call, marks: map<Token, Mark>)
    requires TokensCover(t) && Accounted(t, marks)
    ensures Accounted(Apply(t, c), MarksAfter(marks, c, IssuedBy(t, c)))
  {
    match c
    case RegisterCall(_, _, _, _) => RegisterKeepsAccount(t, c, marks);
    case DeregisterActionCall(token) => DeregisterKeepsAccount(t, token, marks);
    case DeregisterFdCall(fd) => DeregisterFdKeepsAccount(t, fd, marks);
    case _ => SameActions(t, Apply(t, c), marks);
  }

  lemma SameActions(t: Tables, u: Tables, marks: map<Token, Mark>)
    requires Accounted(t, marks) && u.cancelMap == t.cancelMap
    requires forall key :: key in u.fdToCallback <==> key in t.fdToCallback
    ensures Accounted(u, marks)
  {
  }

  lemma {:induction false} RunKeepsAccount(t: Tables, calls: seq<Call>, marks: map<Token, Mark>)
    requires TokensCover(t) && Accounted(t, marks)
    ensures Accounted(ApplyAll(t, calls), MarksOf(t, calls, marks))
    decreases |calls|
  {
    if calls == [] {
    } else {
      ApplyKeepsTokens(t, calls[0]);
      CallKeepsAccount(t, calls[0], marks);
      RunKeepsAccount(Apply(t, calls[0]), calls[1..], MarksAfter(marks, calls[0], IssuedBy(t, calls[0])));
    }
  }

  // After every run: the loop knows exactly the tokens that were issued and by which nothing was
  // deregistered since, each for its direction; every registered action has one of them that is
  // live. A token is left over exactly when, after it was issued, DeregisterFd of its descriptor
  // or a DeregisterAction by another token of its direction removed its action. Tokens and
  // actions correspond one to one exactly when none is left over.
  lemma TokensAccounted(open: set<Fd>, calls: seq<Call>)
    ensures var t, marks := ApplyAll(NewTables(open), calls), MarksOf(NewTables(open), calls, map[]);
            Accounted(t, marks) && (OneToOne(t) <==> forall token :: token in marks ==> marks[token].Live?)
  {
    RunKeepsAccount(NewTables(open), calls, map[]);
    var t, marks := ApplyAll(NewTables(open), calls), MarksOf(NewTables(open), calls, map[]);
    RunKeepsTokens(NewTables(open), calls);
    OneToOneIffNoneLeft(t, marks);
  }

  lemma OneToOneIffNoneLeft(t: Tables, marks: map<Token, Mark>)
    requires Accounted(t, marks)
    ensures OneToOne(t) <==> forall token :: token in marks ==> marks[token].Live?
  {
    if token :| token in marks && marks[token].Left? {
      if marks[token].key in t.fdToCallback {
        var o :| o in marks && marks[o] == Live(marks[token].key);
        assert t.cancelMap[o] == t.cancelMap[token] && o != token;
      }
    }
  }

  function Releases(tokens: seq<Token>): seq<Call>
  {
    if tokens == [] then [] else [DeregisterActionCall(tokens[0])] + Releases(tokens[1..])
  }

  lemma ReleaseKeepsActions(t: Tables, token: Token)
    requires token in t.cancelMap ==> t.cancelMap[token] !in t.fdToCallback
    ensures DeregisterAction(t, token).0.fdToCallback == t.fdToCallback
  {
  }

  // All tokens left over are among these, and their directions are free.
  ghost predicate LeftAmong(t: Tables, marks: map<Token, Mark>, tokens: seq<Token>)
  {
    && (forall token :: token in marks && marks[token].Left? ==> token in tokens && marks[token].key !in t.fdToCallback)
    && (forall token :: token in tokens && token in marks ==> marks[token].Left?)
  }

  lemma ReleaseStep(t: Tables, tokens: seq<Token>, marks: map<Token, Mark>)
    requires Accounted(t, marks) && tokens != [] && LeftAmong(t, marks, tokens)
    ensures DeregisterAction(t, tokens[0]).0.fdToCallback == t.fdToCallback
    ensures LeftAmong(DeregisterAction(t, tokens[0]).0, Released(marks, tokens[0]), tokens[1..])
  {
    var token := tokens[0];
    ReleaseKeepsActions(t, token);
    assert forall o :: o in tokens <==> o == token || o in tokens[1..];
    if token in marks {
      assert marks[token].Left? && forall o :: o in marks ==> marks[o] != Live(marks[token].key);
    }
  }

  // When the owners of all tokens left over release them, and no direction was registered again
  // meanwhile, tokens and actions correspond one to one again, and all actions stay.
  lemma {:induction false} ReleasesRestore(t: Tables, tokens: seq<Token>, marks: map<Token, Mark>)
    requires TokensCover(t) && Accounted(t, marks) && LeftAmong(t, marks, tokens)
    ensures var u := ApplyAll(t, Releases(tokens)); OneToOne(u) && u.fdToCallback == t.fdToCallback
    decreases |tokens|
  {
    if tokens == [] {
      OneToOneIffNoneLeft(t, marks);
    } else {
      var call := DeregisterActionCall(tokens[0]);
      ApplyKeepsTokens(t, call);
      DeregisterKeepsAccount(t, tokens[0], marks);
      ReleaseStep(t, tokens, marks);
      ReleasesRestore(Apply(t, call), tokens[1..], Released(marks, tokens[0]));
      assert Releases(tokens)[1..] == Releases(tokens[1..]);
    }
  }
}
