/**
 * Clients of the session handlers: typical request sequences of the chat
 * front end, followed through the handlers' contracts alone, for any prompts
 * and any model client and renderer that meet each method's requires.
 */
module Scenarios {
  import opened Wrappers
  import opened Text
  import opened HistoryStore
  import opened App

  ghost predicate NeverRaises(f: string -> Upstream) {
    forall x :: f(x).Returned?
  }

  /** A prompt that is only whitespace is refused and nothing is stored, not even an empty list. */
  method BlankPromptRefused(markdown: string -> Upstream, model: string -> Upstream, blank: string, now: string)
    requires AllSpace(blank)
  {
    var s := new Session(markdown);
    var r := s.Predict(Some(blank), model, now);
    assert r == Reply(400, Failed(NoPromptError));
    assert s.stored == None;
  }

  /** A padded prompt is stored stripped, as the only record, and reads back by index. */
  method CreateThenView(markdown: string -> Upstream, model: string -> Upstream, p: string, now: string)
    requires NeverRaises(markdown) && NeverRaises(model)
    requires Tight(p) && p != []
  {
    var s := new Session(markdown);
    var page := s.Index();
    assert page == [];
    var padded := "  " + p + " ";
    assert StripAt(p, padded, 2) by {
      assert padded[2..2 + |p|] == p;
      assert padded[..2] == "  " && padded[2 + |p|..] == " ";
    }
    StripUnique(p, padded);
    assert FormPrompt(Some(padded)) == p;
    assert Generate(p, model, s.markdown, now).Success? by {
      assert model(p).Returned? && markdown(model(p).text).Returned?;
    }
    var r := s.Predict(Some(padded), model, now);
    assert r.status == 200;
    assert |s.History()| == 1 && s.History()[0].prompt == p;
    assert s.ViewHistory(0).body == Record(s.History()[0]);
    assert s.ViewHistory(5) == Reply(400, Failed(InvalidIndexError));
  }

  /** Editing record 0 keeps the length and replaces the prompt and the time. */
  method EditOnlyRecord(markdown: string -> Upstream, model: string -> Upstream, p: string, q: string, now: string, later: string)
    requires NeverRaises(markdown) && NeverRaises(model)
    requires Tight(p) && p != [] && q != []
  {
    var s := new Session(markdown);
    StripTight(p);
    assert FormPrompt(Some(p)) == p;
    assert Generate(p, model, s.markdown, now).Success? by {
      assert model(p).Returned? && markdown(model(p).text).Returned?;
    }
    var r := s.Predict(Some(p), model, now);
    assert |s.History()| == 1;
    assert Generate(q, model, s.markdown, later).Success? by {
      assert model(q).Returned? && markdown(model(q).text).Returned?;
    }
    r := s.EditHistory(0, Some(q), model, later);
    assert r.body.Edited?;
    assert |s.History()| == 1 && s.History()[0].prompt == q && s.History()[0].createdAt == later;
  }

  /** A model that raises leaves the history alone, on create and on edit. */
  method UpstreamFailure(markdown: string -> Upstream, model: string -> Upstream, bad: string -> Upstream,
                         p: string, q: string, now: string)
    requires NeverRaises(markdown) && NeverRaises(model)
    requires forall x :: bad(x).Raised?
    requires Tight(p) && p != [] && q != []
  {
    var s := new Session(markdown);
    var page := s.Index();
    StripTight(p);
    assert FormPrompt(Some(p)) == p;
    var r := s.Predict(Some(p), bad, now);
    assert r.status == 500 && s.History() == [];
    assert Generate(p, model, s.markdown, now).Success? by {
      assert model(p).Returned? && markdown(model(p).text).Returned?;
    }
    r := s.Predict(Some(p), model, now);
    assert |s.History()| == 1;
    var before := s.History();
    r := s.EditHistory(0, Some(q), bad, now);
    assert r.status == 200 && r.body.Failed? && s.History() == before;
  }

  /** With two records, deleting the first moves the second to position 0. */
  method DeleteShifts(markdown: string -> Upstream, model: string -> Upstream, p: string, q: string, now: string)
    requires NeverRaises(markdown) && NeverRaises(model)
    requires Tight(p) && p != [] && Tight(q) && q != []
  {
    var s := new Session(markdown);
    StripTight(p);
    StripTight(q);
    assert FormPrompt(Some(p)) == p && FormPrompt(Some(q)) == q;
    var r := s.Predict(Some(p), model, now);
    assert |s.History()| == 1;
    r := s.Predict(Some(q), model, now);
    assert |s.History()| == 2;
    var second := s.History()[1];
    r := s.DeleteHistory(0);
    assert |s.History()| == 1 && s.History()[0] == second;
  }

  /** Deleting past the end is refused and changes nothing. */
  method DeletePastEnd(markdown: string -> Upstream) {
    var s := new Session(markdown);
    var r := s.DeleteHistory(0);
    assert r == Reply(400, Failed(InvalidIndexError)) && s.stored == None;
  }
}
