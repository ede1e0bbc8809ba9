/** The three hosts side by side: where two of them offer the same action,
    they make the same AI calls. */
module HostAgreement {
  import opened Wrappers
  import opened Pixels
  import opened Canvas
  import opened Hosts
  import Magic = MagicCanvasSection
  import Equation = EquationSolverSection
  import Doodle = DoodleSection

  /** Equation mode of MagicCanvasSection and EquationSolverSection call the
      solver and the tutorial search alike, on every outcome of the export
      closure and every answer of the flows, and store the same solution
      and tutorials. */
  lemma EquationHostsCallAlike(mst: Magic.MagicState, est: Equation.EquationState, e: Export, flows: Flows)
    requires mst.mode == Magic.EquationMode
    ensures var m := Magic.HandleProcessCanvas(mst, e, flows);
            var q := Equation.HandleSolveEquation(est, e, flows);
            && m.calls == q.calls
            && (|m.calls| > 0 ==> m.state.solution == q.state.solution && m.state.tutorials == q.state.tutorials)
  {
  }

  /** Doodle mode of MagicCanvasSection and DoodleSection call the enhancer
      and the tutorial search alike on every export of a mounted canvas,
      though their blank tests differ on arbitrary images, and store the
      same artwork and tutorials. */
  lemma DoodleHostsCallAlike(mst: Magic.MagicState, dst: Doodle.DoodleState, s: Surface, flows: Flows)
    requires mst.mode == Magic.DoodleMode && mst.prompt == dst.prompt
    ensures var e := RequestCanvasData(true, Some(s));
            var m := Magic.HandleProcessCanvas(mst, e, flows);
            var d := Doodle.HandleEnhanceDoodle(dst, e, flows);
            && m.calls == d.calls
            && (|m.calls| > 0 ==> m.state.enhancedArtwork == d.state.enhancedArtwork && m.state.tutorials == d.state.tutorials)
  {
    HostSeesExport(s);
    if !NoArea(s) {
      var e := RequestCanvasData(true, Some(s));
      var pixels := ReadBack(e.url.value).value;
      if BlankAtExport(s.pixels) {
        assert Doodle.HandleEnhanceDoodle(dst, e, flows).calls == [];
      } else if Magic.Admitted(mst, e.url) {
        assert Doodle.Admitted(dst, pixels);
      }
    }
  }
}
