// `GerenciadorAtalhos` (atalhos.py): a table from application functions to
// keyboard shortcuts written as "Ctrl+B", and their translation into the
// toolkit's event names such as "<Control-b>".
module Shortcuts {
  import opened Text
  import opened Util

  type Table = map<string, string>

  /** No shortcut is bound to two functions. */
  predicate Injective(t: Table)
  {
    forall f, g :: f in t && g in t && f != g ==> t[f] != t[g]
  }

  /** `atalhos_padrao` */
  function Defaults(): Table
  {
    map["importar_banco" := "Ctrl+B", "importar_livro" := "Ctrl+L", "conciliar" := "Ctrl+C",
        "gerar_relatorio_diario" := "Ctrl+R", "gerar_relatorio_mensal" := "Ctrl+M",
        "gerar_relatorio_divergencias" := "Ctrl+D", "mostrar_graficos" := "Ctrl+G",
        "limpar_dados" := "Ctrl+Del", "sair" := "Alt+F4"]
  }

  /** The nine functions the defaults bind. */
  lemma DefaultKeys()
    ensures Defaults().Keys == {"importar_banco", "importar_livro", "conciliar", "gerar_relatorio_diario",
      "gerar_relatorio_mensal", "gerar_relatorio_divergencias", "mostrar_graficos", "limpar_dados", "sair"}
  {
  }

  lemma DefaultValue(f: string)
    requires f in Defaults()
    ensures Defaults()[f] in ["Ctrl+B", "Ctrl+L", "Ctrl+C", "Ctrl+R", "Ctrl+M", "Ctrl+D", "Ctrl+G", "Ctrl+Del", "Alt+F4"]
  {
  }

  /** The default table binds its functions to pairwise distinct shortcuts. */
  lemma DefaultsInjective()
    ensures Injective(Defaults())
  {
    var t := Defaults();
    forall f, g | f in t && g in t && f != g ensures t[f] != t[g] {
      DefaultValue(f);
      DefaultValue(g);
    }
  }

  /** `converter_atalho`: "Ctrl" becomes "Control", each "+" a "-", a
    * one-character last segment is lower-cased, and the result is bracketed. */
  function Convert(shortcut: string): (r: string)
    ensures |r| >= 2 && r[0] == '<' && r[|r| - 1] == '>'
  {
    var dashed := ReplaceAll(ReplaceAll(shortcut, "Ctrl", "Control"), "+", "-");
    var parts := Split(dashed, '-');
    var last := parts[|parts| - 1];
    var parts' := if |parts| > 1 && |last| == 1 then parts[..|parts| - 1] + [Lower(last)] else parts;
    "<" + Join(parts', '-') + ">"
  }

  lemma {:induction false} JoinSnoc(ps: seq<string>, x: string, sep: char)
    requires ps != []
    ensures Join(ps + [x], sep) == Join(ps, sep) + [sep] + x
  {
    if |ps| == 1 {
      assert ps + [x] == [ps[0], x];
    } else {
      assert (ps + [x])[1..] == ps[1..] + [x];
      JoinSnoc(ps[1..], x, sep);
    }
  }

  /** The conversion changes nothing but the "Ctrl" and "+" spellings and the
    * case of a one-character key after the last '-'. */
  lemma ConvertMeaning(shortcut: string)
    ensures var dashed := ReplaceAll(ReplaceAll(shortcut, "Ctrl", "Control"), "+", "-");
      var parts := Split(dashed, '-');
      Convert(shortcut) == "<" + (if |parts| > 1 && |parts[|parts| - 1]| == 1
                                  then dashed[..|dashed| - 1] + [LowerChar(dashed[|dashed| - 1])]
                                  else dashed) + ">"
  {
    hide ReplaceAll, Split, Join;
    var dashed := ReplaceAll(ReplaceAll(shortcut, "Ctrl", "Control"), "+", "-");
    var parts := Split(dashed, '-');
    JoinSplit(dashed, '-');
    var last := parts[|parts| - 1];
    if |parts| > 1 && |last| == 1 {
      var init := parts[..|parts| - 1];
      assert parts == init + [last];
      JoinSnoc(init, last, '-');
      JoinSnoc(init, Lower(last), '-');
      assert dashed == Join(init, '-') + ['-'] + last;
      assert dashed[..|dashed| - 1] == Join(init, '-') + ['-'];
      assert Lower(last) == [LowerChar(dashed[|dashed| - 1])];
    }
  }

  lemma CtrlExample()
    ensures ReplaceAll("Ctrl+S", "Ctrl", "Control") == "Control+S"
  {
    assert IsPrefix("Ctrl", "Ctrl+S");
    assert "Ctrl+S"[4..] == "+S";
    assert ReplaceAll("+S", "Ctrl", "Control") == "+S" by {
      assert !IsPrefix("Ctrl", "+S");
      assert ReplaceAll("S", "Ctrl", "Control") == "S";
    }
  }

  /** The example of the source's own documentation. */
  lemma ConvertExample()
    ensures Convert("Ctrl+S") == "<Control-s>"
  {
    hide Convert, ReplaceAll, Split, Join;
    CtrlExample();
    ReplaceChar("Control+S", '+', '-');
    assert ReplaceAll("Control+S", "+", "-") == "Control-S";
    SplitAt("Control", '-', "S");
    assert "Control" + ['-'] + "S" == "Control-S";
    SplitNone("S", '-');
    ConvertMeaning("Ctrl+S");
    assert LowerChar('S') == 's';
  }

  /** `obter_descricao_atalho`: the shortcut, or "" for an unknown function. */
  function Description(t: Table, f: string): (r: string)
    ensures f in t ==> r == t[f]
    ensures f !in t ==> r == ""
  {
    if f in t then t[f] else ""
  }

  /** The table after the dialog's writes, in order. */
  function Overlay(t: Table, entries: seq<(string, string)>): (r: Table)
    ensures r.Keys == t.Keys + (set i | 0 <= i < |entries| :: entries[i].0)
    decreases |entries|
  {
    if entries == [] then t else Overlay(t[entries[0].0 := entries[0].1], entries[1..])
  }

  predicate DistinctValues(entries: seq<(string, string)>)
  {
    forall i, j :: 0 <= i < j < |entries| ==> entries[i].1 != entries[j].1
  }

  predicate DistinctKeys(entries: seq<(string, string)>)
  {
    forall i, j :: 0 <= i < j < |entries| ==> entries[i].0 != entries[j].0
  }

  /** After the writes, each written function holds its entry when the
    * entries name each function once. */
  lemma {:induction false} OverlayHolds(t: Table, entries: seq<(string, string)>, i: nat)
    requires DistinctKeys(entries) && i < |entries|
    ensures Overlay(t, entries)[entries[i].0] == entries[i].1
    decreases i
  {
    if i > 0 {
      OverlayHolds(t[entries[0].0 := entries[0].1], entries[1..], i - 1);
    } else {
      OverlayKeeps(t[entries[0].0 := entries[0].1], entries[1..], entries[0].0);
    }
  }

  lemma {:induction false} OverlayKeeps(t: Table, entries: seq<(string, string)>, f: string)
    requires f in t && forall i :: 0 <= i < |entries| ==> entries[i].0 != f
    ensures Overlay(t, entries)[f] == t[f]
    decreases |entries|
  {
    if entries != [] {
      OverlayKeeps(t[entries[0].0 := entries[0].1], entries[1..], f);
    }
  }

  /** A dialog that passed the duplicate test and lists every function
    * leaves a table with no shortcut bound twice. */
  lemma DialogKeepsInjective(t: Table, entries: seq<(string, string)>)
    requires DistinctKeys(entries) && DistinctValues(entries)
    requires forall f :: f in t ==> exists i :: 0 <= i < |entries| && entries[i].0 == f
    ensures Injective(Overlay(t, entries))
  {
    var r := Overlay(t, entries);
    forall f, g | f in r && g in r && f != g ensures r[f] != r[g] {
      var i :| 0 <= i < |entries| && entries[i].0 == f;
      var j :| 0 <= j < |entries| && entries[j].0 == g;
      OverlayHolds(t, entries, i);
      OverlayHolds(t, entries, j);
    }
  }

  class Manager {
    var table: Table

    /** `carregar_atalhos`: the saved table when the file could be read,
      * else the defaults. */
    constructor (saved: Option<Table>)
      ensures table == if saved.Some? then saved.value else Defaults()
    {
      table := if saved.Some? then saved.value else Defaults();
    }

    /** `atualizar_atalho`: rebinds an existing function; the new shortcut
      * is not checked against the others. `saved` is what writing the
      * file reported. */
    method Update(f: string, shortcut: string, saved: bool) returns (ok: bool)
      modifies this`table
      ensures f in old(table) ==> table == old(table)[f := shortcut] && ok == saved
      ensures f !in old(table) ==> table == old(table) && !ok
    {
      if f in table {
        table := table[f := shortcut];
        return saved;
      }
      return false;
    }

    /** `adicionar_atalho`: refuses a shortcut bound to any function;
      * otherwise binds it, replacing the function's earlier binding. */
    method Add(f: string, shortcut: string, saved: bool) returns (ok: bool)
      modifies this`table
      ensures shortcut in old(table).Values ==> table == old(table) && !ok
      ensures shortcut !in old(table).Values ==> table == old(table)[f := shortcut] && ok == saved
      ensures Injective(old(table)) ==> Injective(table)
    {
      if shortcut in table.Values {
        return false;
      }
      table := table[f := shortcut];
      return saved;
    }

    /** `remover_atalho` */
    method Remove(f: string, saved: bool) returns (ok: bool)
      modifies this`table
      ensures f in old(table) ==> table == old(table) - {f} && ok == saved
      ensures f !in old(table) ==> table == old(table) && !ok
      ensures Injective(old(table)) ==> Injective(table)
    {
      if f in table {
        table := table - {f};
        return saved;
      }
      return false;
    }

    /** `salvar_alteracoes`: when the entered shortcuts are pairwise distinct,
      * writes every entry; otherwise changes nothing. */
    method SaveDialog(entries: seq<(string, string)>) returns (applied: bool)
      modifies this`table
      ensures applied <==> DistinctValues(entries)
      ensures table == if applied then Overlay(old(table), entries) else old(table)
    {
      var seen: set<string> := {};
      for i := 0 to |entries|
        invariant seen == set k | 0 <= k < i :: entries[k].1
        invariant DistinctValues(entries[..i])
      {
        if entries[i].1 in seen {
          var k :| 0 <= k < i && entries[k].1 == entries[i].1;
          assert !DistinctValues(entries);
          return false;
        }
        seen := seen + {entries[i].1};
      }
      assert entries[..|entries|] == entries;
      ghost var target := Overlay(table, entries);
      for i := 0 to |entries|
        invariant Overlay(table, entries[i..]) == target
      {
        assert entries[i..][1..] == entries[i + 1..];
        table := table[entries[i].0 := entries[i].1];
      }
      applied := true;
    }
  }
}
