/**
 * The metadata request: a fixed XML template whose placeholders are replaced,
 * each over the whole string, first by the four identity values when the
 * sensor is initialised and then by the dirtiness and the two times of each
 * dirty record.
 */
module Template {
  import opened Wrappers
  import opened Strings
  import opened Externals

  const OPERATOR := "_operator"
  const DEPLOYMENT := "_deployment"
  const STATION := "_station"
  const SENSOR := "_sensor"
  const FROM := "_from"
  const TO := "_to"
  const DIRTINESS := "_dirtiness"

  /**
   * The request template, line by line as the source writes it: the opening
   * `<deployement>` tag does not match its closing `</deployment>` tag.
   */
  const XmlTemplate := Layout(DEPLOYMENT, OPERATOR, STATION, SENSOR, FROM, TO, DIRTINESS)

  const Placeholders: set<string> := {OPERATOR, DEPLOYMENT, STATION, SENSOR, FROM, TO, DIRTINESS}

  /** A piece of fixed text, a field, and what follows. */
  function Join(text: string, field: string, rest: string): string {
    text + (field + rest)
  }

  /** Seven fields between eight pieces of fixed text. */
  function Fill(t0: string, a1: string, t1: string, a2: string, t2: string, a3: string, t3: string,
                a4: string, t4: string, a5: string, t5: string, a6: string, t6: string, a7: string,
                t7: string): string
  {
    Join(t0, a1, Join(t1, a2, Join(t2, a3, Join(t3, a4, Join(t4, a5, Join(t5, a6, Join(t6, a7, t7)))))))
  }

  /** The template's fixed text with its seven fields, in the order they appear, filled with the given strings. */
  function Layout(deployment: string, operator: string, station: string, sensor: string,
                  from: string, to: string, dirtiness: string): string
  {
    Fill("<metadata>\n\t<deployement>", deployment,
         "</deployment>\n\t<operator>", operator,
         "</operator>\n\t<station>", station,
         "</station>\n\t<sensor>", sensor,
         "</sensor>\n\t<from>", from,
         "</from>\n\t<to>", to,
         "</to>\n\t<dirtiness>", dirtiness,
         "</dirtiness>\n</metadata>")
  }

  /** The pre-render done once at initialisation: the four identity placeholders, in this order. */
  function PrepareRequest(operator: string, deployment: string, station: string, sensor: string): string {
    var r := ReplaceAll(XmlTemplate, OPERATOR, operator);
    var r := ReplaceAll(r, DEPLOYMENT, deployment);
    var r := ReplaceAll(r, STATION, station);
    ReplaceAll(r, SENSOR, sensor)
  }

  /** The per-event part of outputAsXML: dirtiness, then from, then to. */
  function FillEvent(prepared: string, dirtiness: string, from: string, to: string): string {
    var r := ReplaceAll(prepared, DIRTINESS, dirtiness);
    var r := ReplaceAll(r, FROM, from);
    ReplaceAll(r, TO, to)
  }

  /**
   * outputAsXML. None stands for the exception it can throw: no request was
   * prepared (a null dereference), or a time could not be formatted.
   */
  function OutputAsXml(prepared: Option<string>, lib: Library, dirtiness: real, from: int, to: int): Option<string> {
    if prepared.None? then None
    else match (lib.isoTime(from), lib.isoTime(to))
      case (Some(f), Some(t)) => Some(FillEvent(prepared.value, lib.showDouble(dirtiness), f, t))
      case _ => None
  }

  /** A value that holds no placeholder: it has no underscore, the character every placeholder starts with. */
  predicate Plain(s: string) {
    '_' !in s
  }

  /** A template field before or after a substitution: a placeholder or a plain value. */
  predicate Field(s: string) {
    s in Placeholders || Plain(s)
  }

  function Subst(s: string, pat: string, rep: string): string {
    if s == pat then rep else s
  }

  /** No placeholder is a prefix of another, and only the first character of each is an underscore. */
  lemma PlaceholderShape(p: string, q: string)
    requires p in Placeholders && q in Placeholders
    ensures |p| >= 3 && p[0] == '_' && '_' !in p[1..]
    ensures p != q ==> !(p <= q)
  {
    if p != q {
      assert p[1] != q[1] || p[2] != q[2];
    }
  }

  /** A field is never straddled by a placeholder, and replacing a placeholder in it is all or nothing. */
  lemma FieldReplace(a: string, pat: string, rep: string)
    requires pat in Placeholders && Field(a)
    ensures NoPartialSuffix(a, pat)
    ensures ReplaceAll(a, pat, rep) == Subst(a, pat, rep)
  {
    PlaceholderShape(pat, pat);
    if Plain(a) {
      PlainText(a, pat, rep);
    } else {
      PlaceholderReplace(a, pat, rep);
    }
  }

  /** A placeholder is replaced only by its own substitution. */
  lemma PlaceholderReplace(a: string, pat: string, rep: string)
    requires pat in Placeholders && a in Placeholders
    ensures NoPartialSuffix(a, pat)
    ensures ReplaceAll(a, pat, rep) == Subst(a, pat, rep)
  {
    PlaceholderShape(a, pat);
    PlaceholderShape(pat, a);
    forall i | 0 <= i < |a| && |a| - i < |pat|
      ensures !(a[i..] <= pat)
    {
      if i > 0 {
        assert a[i..][0] == a[1..][i - 1];
      }
    }
    if a == pat {
      ReplaceAllExact(pat, rep);
    } else {
      forall i | 0 <= i <= |a|
        ensures !OccursAt(a, pat, i)
      {
        if 0 < i < |a| {
          assert a[i..][0] == a[1..][i - 1];
        }
      }
      ReplaceAllAbsent(a, pat, rep);
    }
  }

  /** One substitution over filled text acts field by field when no field is straddled. */
  lemma FillReplace(t0: string, a1: string, t1: string, a2: string, t2: string, a3: string, t3: string,
                    a4: string, t4: string, a5: string, t5: string, a6: string, t6: string, a7: string,
                    t7: string, pat: string, rep: string)
    requires pat != [] && pat[0] !in t0 && pat[0] !in t1 && pat[0] !in t2 && pat[0] !in t3
    requires pat[0] !in t4 && pat[0] !in t5 && pat[0] !in t6 && pat[0] !in t7
    requires NoPartialSuffix(a1, pat) && NoPartialSuffix(a2, pat) && NoPartialSuffix(a3, pat)
    requires NoPartialSuffix(a4, pat) && NoPartialSuffix(a5, pat) && NoPartialSuffix(a6, pat)
    requires NoPartialSuffix(a7, pat)
    ensures ReplaceAll(Fill(t0, a1, t1, a2, t2, a3, t3, a4, t4, a5, t5, a6, t6, a7, t7), pat, rep)
         == Fill(t0, ReplaceAll(a1, pat, rep), t1, ReplaceAll(a2, pat, rep), t2, ReplaceAll(a3, pat, rep),
                 t3, ReplaceAll(a4, pat, rep), t4, ReplaceAll(a5, pat, rep), t5, ReplaceAll(a6, pat, rep),
                 t6, ReplaceAll(a7, pat, rep), t7)
  {
    PlainText(t7, pat, rep);
    var r6 := Join(t6, a7, t7);
    JoinReplace(t6, a7, t7, pat, rep);
    var r5 := Join(t5, a6, r6);
    JoinReplace(t5, a6, r6, pat, rep);
    var r4 := Join(t4, a5, r5);
    JoinReplace(t4, a5, r5, pat, rep);
    var r3 := Join(t3, a4, r4);
    JoinReplace(t3, a4, r4, pat, rep);
    var r2 := Join(t2, a3, r3);
    JoinReplace(t2, a3, r3, pat, rep);
    var r1 := Join(t1, a2, r2);
    JoinReplace(t1, a2, r2, pat, rep);
    JoinReplace(t0, a1, r1, pat, rep);
  }

  lemma JoinReplace(t: string, a: string, rest: string, pat: string, rep: string)
    requires pat != [] && pat[0] !in t && NoPartialSuffix(a, pat)
    ensures ReplaceAll(Join(t, a, rest), pat, rep) == Join(t, ReplaceAll(a, pat, rep), ReplaceAll(rest, pat, rep))
  {
    PlainText(t, pat, rep);
    ReplaceAllAppend(t, a + rest, pat, rep);
    ReplaceAllAppend(a, rest, pat, rep);
  }

  /** One substitution over the layout acts field by field when no field is straddled. */
  lemma LayoutReplace(a1: string, a2: string, a3: string, a4: string, a5: string, a6: string, a7: string,
                      pat: string, rep: string)
    requires pat in Placeholders
    requires NoPartialSuffix(a1, pat) && NoPartialSuffix(a2, pat) && NoPartialSuffix(a3, pat)
    requires NoPartialSuffix(a4, pat) && NoPartialSuffix(a5, pat) && NoPartialSuffix(a6, pat)
    requires NoPartialSuffix(a7, pat)
    ensures ReplaceAll(Layout(a1, a2, a3, a4, a5, a6, a7), pat, rep)
         == Layout(ReplaceAll(a1, pat, rep), ReplaceAll(a2, pat, rep), ReplaceAll(a3, pat, rep),
                   ReplaceAll(a4, pat, rep), ReplaceAll(a5, pat, rep), ReplaceAll(a6, pat, rep),
                   ReplaceAll(a7, pat, rep))
  {
    PlaceholderShape(pat, pat);
    FillReplace("<metadata>\n\t<deployement>", a1, "</deployment>\n\t<operator>", a2,
                "</operator>\n\t<station>", a3, "</station>\n\t<sensor>", a4, "</sensor>\n\t<from>", a5,
                "</from>\n\t<to>", a6, "</to>\n\t<dirtiness>", a7, "</dirtiness>\n</metadata>", pat, rep);
  }

  /** One substitution over a layout whose fields are placeholders or plain values. */
  lemma LayoutSubst(a1: string, a2: string, a3: string, a4: string, a5: string, a6: string, a7: string,
                    pat: string, rep: string)
    requires pat in Placeholders
    requires Field(a1) && Field(a2) && Field(a3) && Field(a4) && Field(a5) && Field(a6) && Field(a7)
    ensures ReplaceAll(Layout(a1, a2, a3, a4, a5, a6, a7), pat, rep)
         == Layout(Subst(a1, pat, rep), Subst(a2, pat, rep), Subst(a3, pat, rep), Subst(a4, pat, rep),
                   Subst(a5, pat, rep), Subst(a6, pat, rep), Subst(a7, pat, rep))
  {
    FieldReplace(a1, pat, rep);
    FieldReplace(a2, pat, rep);
    FieldReplace(a3, pat, rep);
    FieldReplace(a4, pat, rep);
    FieldReplace(a5, pat, rep);
    FieldReplace(a6, pat, rep);
    FieldReplace(a7, pat, rep);
    LayoutReplace(a1, a2, a3, a4, a5, a6, a7, pat, rep);
  }

  /**
   * With plain identity values, the pre-rendered request is the template with
   * those values in their elements and only the three per-event placeholders left.
   */
  lemma PreparedLayout(operator: string, deployment: string, station: string, sensor: string)
    requires Plain(operator) && Plain(deployment) && Plain(station) && Plain(sensor)
    ensures PrepareRequest(operator, deployment, station, sensor)
         == Layout(deployment, operator, station, sensor, FROM, TO, DIRTINESS)
  {
    LayoutSubst(DEPLOYMENT, OPERATOR, STATION, SENSOR, FROM, TO, DIRTINESS, OPERATOR, operator);
    LayoutSubst(DEPLOYMENT, operator, STATION, SENSOR, FROM, TO, DIRTINESS, DEPLOYMENT, deployment);
    LayoutSubst(deployment, operator, STATION, SENSOR, FROM, TO, DIRTINESS, STATION, station);
    LayoutSubst(deployment, operator, station, SENSOR, FROM, TO, DIRTINESS, SENSOR, sensor);
  }

  /** With plain values throughout, the request for an event is the template with every field filled. */
  lemma EventLayout(operator: string, deployment: string, station: string, sensor: string,
                    dirtiness: string, from: string, to: string)
    requires Plain(operator) && Plain(deployment) && Plain(station) && Plain(sensor)
    requires Plain(dirtiness) && Plain(from) && Plain(to)
    ensures FillEvent(PrepareRequest(operator, deployment, station, sensor), dirtiness, from, to)
         == Layout(deployment, operator, station, sensor, from, to, dirtiness)
  {
    PreparedLayout(operator, deployment, station, sensor);
    LayoutSubst(deployment, operator, station, sensor, FROM, TO, DIRTINESS, DIRTINESS, dirtiness);
    LayoutSubst(deployment, operator, station, sensor, FROM, TO, dirtiness, FROM, from);
    LayoutSubst(deployment, operator, station, sensor, from, TO, dirtiness, TO, to);
  }

  /**
   * Substitutions are global: an operator value that itself contains `_to`
   * has that text replaced by the event's `to` time as well.
   */
  lemma OperatorValueRewritten(x: string, y: string, deployment: string, station: string, sensor: string,
                               dirtiness: string, from: string, to: string)
    requires Plain(x) && Plain(y) && Plain(deployment) && Plain(station) && Plain(sensor)
    requires Plain(dirtiness) && Plain(from) && Plain(to)
    ensures FillEvent(PrepareRequest(x + (TO + y), deployment, station, sensor), dirtiness, from, to)
         == Layout(deployment, x + (to + y), station, sensor, from, to, dirtiness)
  {
    var op := x + (TO + y);
    PreparedWithEmbeddedTo(x, y, deployment, station, sensor);
    EmbeddedPlaceholder(x, TO, y, DIRTINESS, dirtiness);
    EmbeddedPlaceholder(x, TO, y, FROM, from);
    EmbeddedPlaceholder(x, TO, y, TO, to);
    LayoutSubstOp(deployment, op, station, sensor, FROM, TO, DIRTINESS, DIRTINESS, dirtiness);
    LayoutSubstOp(deployment, op, station, sensor, FROM, TO, dirtiness, FROM, from);
    LayoutSubstOp(deployment, op, station, sensor, from, TO, dirtiness, TO, to);
  }

  /** Preparing the request leaves an operator value that contains `_to` as it is, for now. */
  lemma PreparedWithEmbeddedTo(x: string, y: string, deployment: string, station: string, sensor: string)
    requires Plain(x) && Plain(y) && Plain(deployment) && Plain(station) && Plain(sensor)
    ensures PrepareRequest(x + (TO + y), deployment, station, sensor)
         == Layout(deployment, x + (TO + y), station, sensor, FROM, TO, DIRTINESS)
  {
    var op := x + (TO + y);
    LayoutSubst(DEPLOYMENT, OPERATOR, STATION, SENSOR, FROM, TO, DIRTINESS, OPERATOR, op);
    EmbeddedPlaceholder(x, TO, y, DEPLOYMENT, deployment);
    EmbeddedPlaceholder(x, TO, y, STATION, station);
    EmbeddedPlaceholder(x, TO, y, SENSOR, sensor);
    LayoutSubstOp(DEPLOYMENT, op, STATION, SENSOR, FROM, TO, DIRTINESS, DEPLOYMENT, deployment);
    LayoutSubstOp(deployment, op, STATION, SENSOR, FROM, TO, DIRTINESS, STATION, station);
    LayoutSubstOp(deployment, op, station, SENSOR, FROM, TO, DIRTINESS, SENSOR, sensor);
  }

  /** A placeholder between two plain strings: only that placeholder can be replaced, and nothing straddles it. */
  lemma EmbeddedPlaceholder(x: string, q: string, y: string, pat: string, rep: string)
    requires Plain(x) && Plain(y) && q in Placeholders && pat in Placeholders
    ensures NoPartialSuffix(x + (q + y), pat)
    ensures ReplaceAll(x + (q + y), pat, rep) == x + (Subst(q, pat, rep) + y)
  {
    PlaceholderShape(pat, pat);
    FieldReplace(q, pat, rep);
    Sandwich(x, q, y, pat, rep);
  }

  /** As LayoutSubst, with the operator field any string the substitution maps as given. */
  lemma LayoutSubstOp(a1: string, op: string, a3: string, a4: string, a5: string, a6: string, a7: string,
                      pat: string, rep: string)
    requires pat in Placeholders && NoPartialSuffix(op, pat)
    requires Field(a1) && Field(a3) && Field(a4) && Field(a5) && Field(a6) && Field(a7)
    ensures ReplaceAll(Layout(a1, op, a3, a4, a5, a6, a7), pat, rep)
         == Layout(Subst(a1, pat, rep), ReplaceAll(op, pat, rep), Subst(a3, pat, rep), Subst(a4, pat, rep),
                   Subst(a5, pat, rep), Subst(a6, pat, rep), Subst(a7, pat, rep))
  {
    FieldReplace(a1, pat, rep);
    FieldReplace(a3, pat, rep);
    FieldReplace(a4, pat, rep);
    FieldReplace(a5, pat, rep);
    FieldReplace(a6, pat, rep);
    FieldReplace(a7, pat, rep);
    LayoutReplace(a1, op, a3, a4, a5, a6, a7, pat, rep);
  }
}
