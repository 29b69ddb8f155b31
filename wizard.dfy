// `AssistenteReconciliacao` (assistente_reconciliacao.py): a fixed list of
// eight steps walked forwards and backwards, each step optionally naming an
// action of the main window.
module Wizard {

  /** The main-window operations a step can trigger. */
  datatype Action = ImportBank | ImportLedger | Reconcile | DivergenceReport

  datatype Step = Step(title: string, action: StepAction)

  /** `None` in the source's `"acao": None`. */
  datatype StepAction = NoAction | Does(what: Action)

  /** The `passos` table: welcome, six numbered steps and the closing one. */
  function Steps(): (s: seq<Step>)
    ensures |s| == 8
  {
    [ Step("Bem-vindo ao Assistente de Reconciliação", NoAction),
      Step("Passo 1: Importar Extrato Bancário", Does(ImportBank)),
      Step("Passo 2: Importar Livro Contábil", Does(ImportLedger)),
      Step("Passo 3: Verificar Totais", NoAction),
      Step("Passo 4: Conciliar Transações", Does(Reconcile)),
      Step("Passo 5: Analisar Divergências", NoAction),
      Step("Passo 6: Gerar Relatório", Does(DivergenceReport)),
      Step("Reconciliação Concluída!", NoAction) ]
  }

  /** Steps 0, 3, 5 and 7 have no action; the others each have a different one. */
  lemma StepsWithoutAction()
    ensures forall i :: 0 <= i < |Steps()| ==> (Steps()[i].action == NoAction <==> i in {0, 3, 5, 7})
    ensures forall i, j :: 0 <= i < j < |Steps()| && Steps()[i].action != NoAction ==> Steps()[i].action != Steps()[j].action
  {
    var s := Steps();
    assert s[0].action == NoAction && s[3].action == NoAction && s[5].action == NoAction && s[7].action == NoAction;
    assert s[1].action == Does(ImportBank) && s[2].action == Does(ImportLedger);
    assert s[4].action == Does(Reconcile) && s[6].action == Does(DivergenceReport);
  }

  /** The percentage shown by the progress bar on step `current` of `n`. */
  function Progress(current: nat, n: nat): (p: real)
    requires 2 <= n && current < n
    ensures 0.0 <= p <= 100.0
    ensures p == 0.0 <==> current == 0
    ensures p == 100.0 <==> current == n - 1
  {
    (current as real / (n - 1) as real) * 100.0
  }

  /** Which of the Previous, Action and Next buttons are enabled. */
  datatype Buttons = Buttons(previous: bool, action: bool, next: bool)

  function ButtonsOn(steps: seq<Step>, current: nat): (b: Buttons)
    requires current < |steps|
    ensures b.previous <==> current > 0
    ensures b.next <==> current + 1 < |steps|
    ensures b.action <==> steps[current].action != NoAction
  {
    Buttons(current > 0, steps[current].action.Does?, current < |steps| - 1)
  }

  /** The view `atualizar_conteudo` draws: title, buttons and progress. */
  datatype View = View(title: string, buttons: Buttons, progress: real)

  class Assistant {
    const steps: seq<Step> := Steps()
    var current: nat

    ghost predicate Valid()
      reads this
    {
      current < |steps|
    }

    constructor ()
      ensures current == 0 && Valid()
    {
      current := 0;
    }

    /** `iniciar`: back to the first step. */
    method Start()
      modifies this`current
      ensures current == 0 && Valid()
    {
      current := 0;
    }

    /** `passo_anterior`: one step back unless already at the first. */
    method Back()
      requires Valid()
      modifies this`current
      ensures Valid()
      ensures current == if old(current) > 0 then old(current) - 1 else old(current)
    {
      if current > 0 {
        current := current - 1;
      }
    }

    /** `passo_proximo`: one step on unless already at the last. */
    method Forward()
      requires Valid()
      modifies this`current
      ensures Valid()
      ensures current == if old(current) + 1 < |steps| then old(current) + 1 else old(current)
    {
      if current < |steps| - 1 {
        current := current + 1;
      }
    }

    /** `atualizar_conteudo` for the step table of the source. */
    method Render() returns (v: View)
      requires Valid()
      ensures v == View(steps[current].title, ButtonsOn(steps, current), Progress(current, |steps|))
    {
      var step := steps[current];
      v := View(step.title, Buttons(current > 0, step.action != NoAction, current < |steps| - 1),
                (current as real / (|steps| - 1) as real) * 100.0);
    }

    /** `executar_acao`: the action to run, if the step has one; the step
      * itself does not change. */
    method ExecuteAction() returns (run: StepAction)
      requires Valid()
      ensures run == steps[current].action
    {
      run := steps[current].action;
    }
  }

  /** Any sequence of Back/Forward presses keeps the current step in range. */
  function Walk(current: nat, n: nat, presses: seq<bool>): nat
    decreases |presses|
  {
    if presses == [] then current
    else if presses[0] then Walk(if current + 1 < n then current + 1 else current, n, presses[1..])
    else Walk(if current > 0 then current - 1 else current, n, presses[1..])
  }

  lemma {:induction false} WalkStaysInRange(current: nat, n: nat, presses: seq<bool>)
    requires current < n
    ensures Walk(current, n, presses) < n
    decreases |presses|
  {
    if presses != [] {
      WalkStaysInRange(if presses[0] then (if current + 1 < n then current + 1 else current)
                       else (if current > 0 then current - 1 else current), n, presses[1..]);
    }
  }

  /** `k` Next presses from a step reach the step `k` further on while that is
    * still a step; from the first step, `n - 1` presses reach the last one. */
  lemma {:induction false} ForwardReachesEnd(current: nat, n: nat, k: nat)
    requires current + k < n
    ensures Walk(current, n, seq(k, _ => true)) == current + k
    decreases k
  {
    if k > 0 {
      assert seq(k, _ => true)[1..] == seq(k - 1, _ => true);
      ForwardReachesEnd(current + 1, n, k - 1);
    }
  }
}
