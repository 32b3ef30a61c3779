/** The Plotly API calls the page script makes, recorded in order instead of performed. */
module PlotlyCalls {
  import opened Json

  datatype PlotlyCall =
    | React(data: seq<JVal>, layout: map<string, JVal>)  // Plotly.react(gd, data, layout, ...)
    | Restyle(update: map<string, JVal>, traces: seq<int>)  // Plotly.restyle(gd, update, traces)
    | Relayout(patch: map<string, JVal>)  // Plotly.relayout(gd, patch)
    | Resize  // Plotly.Plots.resize(gd)
}
